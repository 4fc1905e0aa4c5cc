/** What every run of the chat store keeps: authorizations pin instances, and transcripts belong to their wallets. */
module WalletSafety {
  import opened Options
  import opened WalletIdentity
  import opened WalletContext

  // ------------------------------------------------------------- authorizations pin instances

  /** Neither instance is replaced at any step of the run, not even by one that is put back later. */
  ghost predicate Unreplaced(s: Store, ops: seq<Op>, lower: Folding) {
    forall i: nat :: i <= |ops| ==>
      && Run(s, ops[..i], lower).wallet.client == s.wallet.client
      && Run(s, ops[..i], lower).wallet.signing == s.wallet.signing
  }

  /** The four parts of the wallet context are the same after every step of the run. */
  ghost predicate Steady(s: Store, ops: seq<Op>, lower: Folding) {
    forall i: nat :: i <= |ops| ==> Run(s, ops[..i], lower).wallet == s.wallet
  }

  lemma ChangeCounts(s: Store, change: Change, lower: Folding)
    ensures var next := SetWalletContext(s, change, lower);
            && next.wallet == change.next
            && next.clientGeneration == s.clientGeneration + (if next.wallet.client == s.wallet.client then 0 else 1)
            && next.signerGeneration == s.signerGeneration + (if next.wallet.signing == s.wallet.signing then 0 else 1)
            && next.epoch == s.epoch + (if next.wallet == s.wallet then 0 else 1)
  {
    hide Create, Closed, OpenTranscript, CacheTranscript;
  }

  lemma OthersKeepWallet(s: Store, op: Op, lower: Folding)
    requires !op.SetWallet?
    ensures var next := Apply(s, op, lower);
            && next.wallet == s.wallet && next.clientGeneration == s.clientGeneration
            && next.signerGeneration == s.signerGeneration && s.epoch <= next.epoch
  {
    hide Create, SetWalletContext, SaveHistory, LoadHistory, Patched, Trimmed, Superseded, Finished, HasRow, Current;
  }

  /** Only a wallet change touches the wallet, and each replacement is counted. */
  lemma StepCounts(s: Store, op: Op, lower: Folding)
    ensures var next := Apply(s, op, lower);
            && s.clientGeneration <= next.clientGeneration && s.signerGeneration <= next.signerGeneration
            && s.epoch <= next.epoch
            && (next.clientGeneration == s.clientGeneration <==> next.wallet.client == s.wallet.client)
            && (next.signerGeneration == s.signerGeneration <==> next.wallet.signing == s.wallet.signing)
            && (next.epoch == s.epoch ==> next.wallet == s.wallet)
  {
    if op.SetWallet? {
      hide SetWalletContext;
      ChangeCounts(s, op.change, lower);
      assert Apply(s, op, lower) == SetWalletContext(s, op.change, lower);
    } else {
      hide Apply;
      OthersKeepWallet(s, op, lower);
    }
  }

  lemma {:induction false} RunCounts(s: Store, ops: seq<Op>, lower: Folding)
    ensures var end := Run(s, ops, lower);
            && s.clientGeneration <= end.clientGeneration && s.signerGeneration <= end.signerGeneration
            && s.epoch <= end.epoch
            && (end.clientGeneration == s.clientGeneration && end.signerGeneration == s.signerGeneration
                <==> Unreplaced(s, ops, lower))
            && (end.epoch == s.epoch ==> Steady(s, ops, lower))
  {
    hide Apply;
    assert ops[..|ops|] == ops;
    if ops != [] {
      var front := ops[..|ops| - 1];
      RunCounts(s, front, lower);
      StepCounts(Run(s, front, lower), ops[|ops| - 1], lower);
      assert forall i: nat :: i <= |front| ==> ops[..i] == front[..i];
      assert Run(s, ops[..|front|], lower) == Run(s, front, lower);
    }
  }

  /**
   * An authorization captured now is current after a run exactly when the wallet shows the same address and chain
   * again and neither the client nor the signer was replaced at any step in between.
   */
  lemma {:induction false} AuthorizationPins(s: Store, ops: seq<Op>, a: Authorization, lower: Folding)
    requires Capture(s) == Some(a)
    ensures var end := Run(s, ops, lower);
            Current(end, a) <==>
              && end.wallet.address == s.wallet.address && end.wallet.chainId == s.wallet.chainId
              && Unreplaced(s, ops, lower)
  {
    hide Run;
    RunCounts(s, ops, lower);
    if Unreplaced(s, ops, lower) {
      assert ops[..|ops|] == ops;
    }
  }

  /** There is something to capture exactly while a client and a visible address are there, and it is current. */
  lemma CaptureExact(s: Store)
    ensures Capture(s).Some? <==> s.wallet.client.Some? && s.wallet.address.Some? && s.wallet.address.value != ""
    ensures Capture(s).Some? ==> Current(s, Capture(s).value)
  {
    match s.wallet.address
    case None =>
    case Some(address) => assert s.wallet.address == Some("") <==> address == "";
  }

  /** The epoch is stricter: while it stands, no part of the wallet context ever differed. */
  lemma EpochPins(s: Store, ops: seq<Op>, lower: Folding)
    requires Run(s, ops, lower).epoch == s.epoch
    ensures Steady(s, ops, lower) && Unreplaced(s, ops, lower)
  {
    RunCounts(s, ops, lower);
  }

  /** An authorization does not notice another address that came and went; the epoch does. */
  lemma {:induction false} AddressMayReturn(s: Store, other: string, lower: Folding)
    requires Capture(s).Some? && Some(other) != s.wallet.address
    ensures var there := Change(s.wallet.(address := Some(other)), "", true, true);
            var back := Change(s.wallet, "", true, true);
            var end := Run(s, [SetWallet(there), SetWallet(back)], lower);
            && Current(end, Capture(s).value) && end.epoch == s.epoch + 2
            && !Steady(s, [SetWallet(there), SetWallet(back)], lower)
  {
    hide SetWalletContext;
    var there, back := Change(s.wallet.(address := Some(other)), "", true, true), Change(s.wallet, "", true, true);
    var ops := [SetWallet(there), SetWallet(back)];
    assert ops[..1] == [SetWallet(there)] && ops[..1][..0] == [];
    assert Run(s, [], lower) == s;
    var between := SetWalletContext(s, there, lower);
    assert Run(s, ops[..1], lower) == between;
    ChangeCounts(s, there, lower);
    ChangeCounts(between, back, lower);
    assert Run(s, ops, lower) == SetWalletContext(between, back, lower);
  }

  // ------------------------------------------------------------- the invariant

  ghost predicate OwnedBy(rows: seq<Message>, owner: Option<Identity>) {
    forall i :: 0 <= i < |rows| ==> rows[i].owner == owner
  }

  /** Nothing streams, waits for a confirmation or is in flight. */
  predicate Still(m: Message) {
    !m.streaming && !m.awaiting && !m.inFlight
  }

  ghost predicate Settled(rows: seq<Message>) {
    forall i :: 0 <= i < |rows| ==> Still(rows[i])
  }

  /** Rows in storage do not stream, and only tool rows are open. */
  predicate Storable(m: Message) {
    !m.streaming && (m.awaiting || m.inFlight ==> m.role == Tool)
  }

  ghost predicate Stored(rows: seq<Message>, identity: Identity) {
    OwnedBy(rows, Some(identity)) && forall i :: 0 <= i < |rows| ==> Storable(rows[i])
  }

  /** A row waits only under the open card and is in flight only as the active transaction. */
  predicate Accounted(s: Store, m: Message) {
    && (m.awaiting ==> PendingId(s) == Some(m.id)) && (m.inFlight ==> s.active == Some(m.id))
    && (m.awaiting || m.inFlight || PendingId(s) == Some(m.id) ==> m.role == Tool)
  }

  ghost predicate VisibleSound(s: Store) {
    && OwnedBy(s.messages, s.identity)
    && forall i :: 0 <= i < |s.messages| ==> Accounted(s, s.messages[i])
  }

  ghost predicate HiddenSound(cache: map<Identity, seq<Message>>) {
    forall k :: k in cache ==> OwnedBy(cache[k], Some(k)) && Settled(cache[k])
  }

  ghost predicate StorageSound(storage: map<Identity, seq<Message>>) {
    forall k :: k in storage ==> Stored(storage[k], k)
  }

  ghost predicate Sound(s: Store, lower: Folding) {
    && s.identity == Create(s.wallet.chainId, s.wallet.address, lower)
    && (s.pending.Some? ==> Current(s, s.pending.value.authorization) && s.active.None?)
    && (s.active.Some? ==> s.work.streaming)
    && VisibleSound(s) && HiddenSound(s.cache) && StorageSound(s.storage)
  }

  /** Other tabs run the same code: what they store under an identity are rows of that identity. */
  ghost predicate Honest(op: Op) {
    op.SiblingWrites? ==> Stored(op.rows, op.identity)
  }

  // ------------------------------------------------------------- transcripts

  lemma ClosingStills(s: Store, m: Message)
    requires Accounted(s, m)
    ensures Closing(s, m).owner == m.owner && Still(Closing(s, m))
    ensures !Affected(s, m) ==> Still(m)
  {
  }

  /** A transcript closed by a wallet change keeps its owner and holds no open row. */
  lemma ClosedSettles(s: Store, noticeId: string)
    requires VisibleSound(s)
    ensures OwnedBy(Closed(s, noticeId), s.identity) && Settled(Closed(s, noticeId))
  {
    hide Closing, Accounted, Affected;
    forall i | 0 <= i < |s.messages|
      ensures Closing(s, s.messages[i]).owner == s.identity && Still(Closing(s, s.messages[i]))
      ensures !Affected(s, s.messages[i]) ==> Still(s.messages[i])
    {
      ClosingStills(s, s.messages[i]);
    }
  }

  lemma {:induction false} PersistedIsStored(rows: seq<Message>, identity: Identity)
    requires OwnedBy(rows, Some(identity))
    requires forall i :: 0 <= i < |rows| ==> rows[i].awaiting || rows[i].inFlight ==> rows[i].role == Tool
    ensures Stored(Persisted(rows), identity)
  {
    if rows != [] {
      PersistedIsStored(rows[..|rows| - 1], identity);
    }
  }

  lemma SavingKeepsStorage(storage: map<Identity, seq<Message>>, identity: Identity, rows: seq<Message>, writeOk: bool)
    requires StorageSound(storage) && OwnedBy(rows, Some(identity))
    requires forall i :: 0 <= i < |rows| ==> rows[i].awaiting || rows[i].inFlight ==> rows[i].role == Tool
    ensures StorageSound(SaveHistory(storage, identity, rows, writeOk))
  {
    PersistedIsStored(rows, identity);
    hide Persisted, OwnedBy, Storable;
  }

  lemma LoadedIsSettled(storage: map<Identity, seq<Message>>, identity: Identity, readOk: bool)
    requires StorageSound(storage)
    ensures var rows := LoadHistory(storage, identity, readOk); OwnedBy(rows, Some(identity)) && Settled(rows)
  {
    if readOk && identity in storage {
      var rows := storage[identity];
      assert Stored(rows, identity);
      forall i | 0 <= i < |rows| ensures Rehydrated(rows[i]).owner == Some(identity) && Still(Rehydrated(rows[i])) {
        assert Storable(rows[i]);
      }
    }
  }

  // ------------------------------------------------------------- every step keeps the invariant

  lemma OpeningSettles(s: Store, identity: Option<Identity>, readOk: bool)
    requires HiddenSound(s.cache) && StorageSound(s.storage)
    ensures var next := OpenTranscript(s, identity, readOk);
            HiddenSound(next.cache) && OwnedBy(next.messages, identity) && Settled(next.messages)
  {
    hide LoadHistory, StorageSound;
    if identity.Some? {
      LoadedIsSettled(s.storage, identity.value, readOk);
    }
  }

  lemma SettledIsSound(rows: seq<Message>)
    requires Settled(rows)
    ensures forall i :: 0 <= i < |rows| ==> !rows[i].awaiting && !rows[i].inFlight
  {
  }

  lemma CachingSettles(s: Store, closed: seq<Message>, writeOk: bool)
    requires s.identity.Some? && HiddenSound(s.cache) && StorageSound(s.storage)
    requires OwnedBy(closed, s.identity) && Settled(closed)
    ensures var next := CacheTranscript(s, closed, writeOk); HiddenSound(next.cache) && StorageSound(next.storage)
  {
    SettledIsSound(closed);
    SavingKeepsStorage(s.storage, s.identity.value, closed, writeOk);
    hide SaveHistory, NeedsClosing, StorageSound, Settled;
  }

  lemma PublishingSettled(s: Store, next: Wallet, identity: Option<Identity>)
    requires OwnedBy(s.messages, identity) && Settled(s.messages)
    ensures VisibleSound(Published(s, next, identity))
  {
  }

  lemma WalletChangeKeepsSound(s: Store, change: Change, lower: Folding)
    requires Sound(s, lower)
    ensures Sound(SetWalletContext(s, change, lower), lower)
  {
    hide Create, Closed, OpenTranscript, CacheTranscript, HiddenSound, StorageSound, Settled, OwnedBy, VisibleSound;
    ClosedSettles(s, change.noticeId);
    var closed := Closed(s, change.noticeId);
    var candidate := Create(change.next.chainId, change.next.address, lower);
    var kept := s;
    if s.identity.Some? {
      CachingSettles(s, closed, change.writeOk);
      kept := CacheTranscript(s, closed, change.writeOk);
    }
    OpeningSettles(kept, candidate, change.readOk);
    PublishingSettled(OpenTranscript(kept, candidate, change.readOk), change.next, candidate);
    if candidate == s.identity {
      PublishingSettled(s.(messages := closed), change.next, candidate);
    }
  }

  /** What a change that is one leaves behind. */
  lemma ChangeCloses(s: Store, change: Change, lower: Folding)
    requires Sound(s, lower)
    ensures var next := SetWalletContext(s, change, lower);
            && next.wallet == change.next && OwnedBy(next.messages, next.identity)
            && (change.next != s.wallet ==>
                  && next.pending.None? && next.active.None? && next.work == IDLE && next.epoch == s.epoch + 1
                  && Settled(next.messages))
            && (s.identity.Some? && next.identity != s.identity ==>
                  s.identity.value in next.cache && next.cache[s.identity.value] == Closed(s, change.noticeId))
  {
    hide Create, Closed, OpenTranscript, CacheTranscript, HiddenSound, StorageSound, Settled, OwnedBy;
    ClosedSettles(s, change.noticeId);
    var closed := Closed(s, change.noticeId);
    var candidate := Create(change.next.chainId, change.next.address, lower);
    var kept := s;
    if s.identity.Some? {
      CachingSettles(s, closed, change.writeOk);
      kept := CacheTranscript(s, closed, change.writeOk);
      CachedIs(s, closed, change.writeOk);
    }
    OpeningSettles(kept, candidate, change.readOk);
  }

  lemma CachedIs(s: Store, closed: seq<Message>, writeOk: bool)
    requires s.identity.Some?
    ensures var next := CacheTranscript(s, closed, writeOk);
            s.identity.value in next.cache && next.cache[s.identity.value] == closed
  {
    hide SaveHistory, NeedsClosing;
  }

  lemma TrimmedKeeps(rows: seq<Message>, s: Store)
    requires OwnedBy(rows, s.identity) && forall i :: 0 <= i < |rows| ==> Accounted(s, rows[i])
    ensures VisibleSound(s.(messages := Trimmed(rows)))
  {
    var trimmed := Trimmed(rows);
    forall i | 0 <= i < |trimmed| ensures trimmed[i] == rows[|rows| - |trimmed| + i] {}
  }

  lemma SupersedingKeeps(s: Store)
    requires VisibleSound(s)
    ensures VisibleSound(s.(pending := None, messages := Superseded(s)))
  {
    var t := s.(pending := None);
    var rows := Superseded(s);
    forall i | 0 <= i < |rows| ensures Accounted(t, rows[i]) && rows[i].owner == s.identity {
      assert Accounted(s, s.messages[i]);
    }
  }

  lemma AppendingKeeps(s: Store, row: Message)
    requires VisibleSound(s) && Addable(s, row)
    ensures VisibleSound(AddRow(s, row))
  {
    hide Trimmed;
    TrimmedKeeps(s.messages + [row], s);
  }

  lemma SendKeepsSound(s: Store, userId: string, text: Wording, assistantId: string, lower: Folding)
    requires Sound(s, lower)
    ensures Sound(SendMessage(s, userId, text, assistantId, lower), lower)
  {
    hide Create, HiddenSound, StorageSound, Trimmed, Superseded, OwnedBy, Accounted;
    if !s.work.streaming && Matches(s, lower) {
      SupersedingKeeps(s);
      var t := s.(pending := None, messages := Superseded(s));
      var user := Message(userId, User, text, None, None, false, false, false, false, s.identity);
      var reply := Message(assistantId, Assistant, Words(""), None, None, true, false, false, false, s.identity);
      AppendingKeeps(t, user);
      AppendingKeeps(AddRow(t, user), reply);
      VisibleDependsOn(AddRow(AddRow(t, user), reply), SendMessage(s, userId, text, assistantId, lower));
    }
  }

  /** Only the rows, the identity, the card and the active transaction matter to the visible transcript. */
  lemma VisibleDependsOn(s: Store, t: Store)
    requires VisibleSound(s) && t.messages == s.messages && t.identity == s.identity
    requires t.pending == s.pending && t.active == s.active
    ensures VisibleSound(t)
  {
    forall i | 0 <= i < |t.messages| ensures Accounted(t, t.messages[i]) {
      assert Accounted(s, s.messages[i]);
    }
  }

  lemma ConfirmKeepsSound(s: Store, op: Op, lower: Folding)
    requires Sound(s, lower) && (op.Confirm? || op.ReplanSettles?)
    ensures Sound(Apply(s, op, lower), lower)
  {
    hide Create, HiddenSound, StorageSound;
  }

  lemma CardKeepsSound(s: Store, op: Op, lower: Folding)
    requires Sound(s, lower) && (op.Ask? || op.Cancel? || op.Resolve? || op.Amend?)
    ensures Sound(Apply(s, op, lower), lower)
  {
    hide Create, HiddenSound, StorageSound;
  }

  lemma EndingKeepsSound(s: Store, op: Op, lower: Folding)
    requires Sound(s, lower)
    requires op.ClearHistory? || op.Destroy? || op.EndTurn? || op.Attach? || op.Report?
    ensures Sound(Apply(s, op, lower), lower)
  {
    hide Create;
  }

  lemma StorageKeepsSound(s: Store, op: Op, lower: Folding)
    requires Sound(s, lower) && Honest(op)
    requires op.Persist? || op.SiblingWrites? || op.SiblingClears? || op.StorageEvent? || op.StorageCleared?
    ensures Sound(Apply(s, op, lower), lower)
  {
    hide Create, SaveHistory;
    if op.Persist? && s.identity.Some? {
      SavingKeepsStorage(s.storage, s.identity.value, s.messages, true);
    }
  }

  lemma FinishedSettles(rows: seq<Message>, identity: Identity, id: string, outcome: Outcome)
    requires OwnedBy(rows, Some(identity)) && Settled(rows)
    ensures var r := Finished(rows, identity, id, outcome); OwnedBy(r, Some(identity)) && Settled(r)
  {
  }

  lemma FinishingVisibleKeeps(s: Store, identity: Identity, id: string, outcome: Outcome)
    requires VisibleSound(s) && s.identity == Some(identity) && Unused(s, outcome.noticeId)
    ensures VisibleSound(s.(messages := Finished(s.messages, identity, id, outcome)))
  {
    hide Trimmed;
    var patched := Patched(s.messages, id, (m: Message) =>
      m.(content := outcome.content, error := outcome.error, streaming := false, awaiting := false, inFlight := false));
    assert forall i :: 0 <= i < |patched| ==> Accounted(s, patched[i]) && patched[i].owner == s.identity;
    TrimmedKeeps(patched, s);
    if outcome.notice.Some? {
      TrimmedKeeps(patched + [Note(outcome.noticeId, outcome.notice.value, s.identity)], s);
    }
  }

  lemma FinishStaleKeepsSound(s: Store, op: Op, lower: Folding)
    requires Sound(s, lower) && op.FinishStale?
    ensures Sound(FinishStaleTool(s, op), lower)
  {
    hide Create, SaveHistory, LoadHistory, StorageSound, Trimmed, HasRow, Finished;
    if s.identity == Some(op.identity) {
      if Unused(s, op.outcome.noticeId) {
        FinishingVisibleKeeps(s, op.identity, op.id, op.outcome);
      }
    } else {
      var source := if op.identity in s.cache then s.cache[op.identity]
        else LoadHistory(s.storage, op.identity, op.readOk);
      LoadedIsSettled(s.storage, op.identity, op.readOk);
      FinishedSettles(source, op.identity, op.id, op.outcome);
      var updated := Finished(source, op.identity, op.id, op.outcome);
      SettledIsSound(updated);
      SavingKeepsStorage(s.storage, op.identity, updated, op.writeOk);
      VisibleDependsOn(s, FinishStaleTool(s, op));
    }
  }

  lemma StepKeepsSound(s: Store, op: Op, lower: Folding)
    requires Sound(s, lower) && Honest(op)
    ensures Sound(Apply(s, op, lower), lower)
  {
    match op
    case SetWallet(change) =>
      hide Sound, SetWalletContext;
      WalletChangeKeepsSound(s, change, lower);
    case Add(row) =>
      hide Create, HiddenSound, StorageSound, Trimmed, VisibleSound;
      if Addable(s, row) {
        AppendingKeeps(s, row);
      }
    case Send(userId, text, assistantId) =>
      hide Sound, SendMessage;
      SendKeepsSound(s, userId, text, assistantId, lower);
    case FinishStale(_, _, _, _, _) =>
      hide Sound, FinishStaleTool;
      FinishStaleKeepsSound(s, op, lower);
    case Ask(_, _) => hide Sound, Apply; CardKeepsSound(s, op, lower);
    case Confirm(_) => hide Sound, Apply; ConfirmKeepsSound(s, op, lower);
    case ReplanSettles(_, _) => hide Sound, Apply; ConfirmKeepsSound(s, op, lower);
    case Cancel => hide Sound, Apply; CardKeepsSound(s, op, lower);
    case Resolve(_, _) => hide Sound, Apply; CardKeepsSound(s, op, lower);
    case Amend(_, _, _, _) => hide Sound, Apply; CardKeepsSound(s, op, lower);
    case ClearHistory => hide Sound, Apply; EndingKeepsSound(s, op, lower);
    case Destroy => hide Sound, Apply; EndingKeepsSound(s, op, lower);
    case EndTurn => hide Sound, Apply; EndingKeepsSound(s, op, lower);
    case Attach(_) => hide Sound, Apply; EndingKeepsSound(s, op, lower);
    case Report(_) => hide Sound, Apply; EndingKeepsSound(s, op, lower);
    case _ => hide Sound, Apply; StorageKeepsSound(s, op, lower);
  }

  lemma AddKeepsSound(s: Store, row: Message, lower: Folding)
    requires Sound(s, lower) && Addable(s, row)
    ensures Sound(AddRow(s, row), lower)
  {
    hide Sound, AddRow;
    StepKeepsSound(s, Add(row), lower);
  }

  lemma ClearingKeepsSound(s: Store, lower: Folding)
    requires Sound(s, lower)
    ensures Sound(Cleared(s), lower) && Sound(ForgetHidden(s), lower)
  {
    hide Sound, Cleared, ForgetHidden;
    StepKeepsSound(s, ClearHistory, lower);
    StepKeepsSound(s, StorageCleared, lower);
  }

  /** After clearing, opening the same identity's transcript shows nothing; other transcripts are not touched. */
  lemma ClearedShowsNothing(s: Store, k: Identity)
    requires s.active.None?
    ensures var next := Cleared(s);
            && next.messages == [] && next.pending.None? && next.work == IDLE && next.epoch == s.epoch + 1
            && next.wallet == s.wallet && next.identity == s.identity
            && (s.identity == Some(k) ==>
                  OpenTranscript(next, Some(k), true).messages == [] && LoadHistory(next.storage, k, true) == [])
            && (s.identity != Some(k) ==> SameTranscript(s, next, k))
  {
  }

  /** What is kept of an identity, in the session and in storage, is the same. */
  predicate SameTranscript(s: Store, t: Store, k: Identity) {
    && (k in t.cache <==> k in s.cache) && (k in t.storage <==> k in s.storage)
    && (k in t.cache ==> t.cache[k] == s.cache[k]) && (k in t.storage ==> t.storage[k] == s.storage[k])
  }

  lemma ClearedIs(s: Store)
    requires s.active.None?
    ensures var cleared := s.(messages := [], pending := None, work := IDLE, epoch := s.epoch + 1);
            Cleared(s) ==
              if s.identity.None? then cleared
              else cleared.(cache := s.cache[s.identity.value := []], storage := s.storage - {s.identity.value})
  {
  }

  /**
   * In every reachable state the visible transcript holds rows of the selected identity only, every hidden transcript
   * holds rows of its own identity with nothing left open, and an open card is authorized for the present wallet.
   */
  lemma {:induction false} RunKeepsSound(chainId: string, storage: map<Identity, seq<Message>>, ops: seq<Op>,
                                         lower: Folding)
    requires StorageSound(storage) && forall i :: 0 <= i < |ops| ==> Honest(ops[i])
    ensures Sound(Run(Initial(chainId, storage), ops, lower), lower)
  {
    if ops == [] {
    } else {
      hide Sound, Apply, Honest;
      var front := ops[..|ops| - 1];
      RunKeepsSound(chainId, storage, front, lower);
      StepKeepsSound(Run(Initial(chainId, storage), front, lower), ops[|ops| - 1], lower);
    }
  }

  /**
   * Confirming an open card starts its transaction with the instances the card was prepared under, or, for an edited
   * batch, only keeps the card open while it is planned again.
   */
  lemma CardStarts(s: Store, ops: seq<Op>, a: Authorization, edited: bool, lower: Folding)
    requires Capture(s) == Some(a)
    requires var t := Run(s, ops, lower);
             Sound(t, lower) && t.pending.Some? && t.pending.value.authorization == a && !t.work.streaming
    ensures var t := Run(s, ops, lower);
            var next := Apply(t, Confirm(edited), lower);
            && Unreplaced(s, ops, lower) && next.wallet == t.wallet
            && t.wallet.client == s.wallet.client && t.wallet.signing == s.wallet.signing
            && next.active == (if t.identity.Some? && !edited then Some(t.pending.value.messageId) else None)
            && next.pending == (if t.identity.Some? && edited then t.pending else None)
  {
    hide Run, Create, VisibleSound, HiddenSound, StorageSound, Patched;
    AuthorizationPins(s, ops, a, lower);
    assert ops[..|ops|] == ops;
  }

  /** How many of the oldest rows are trimmed away when a transcript is closed. */
  function TrimmedAway(s: Store, noticeId: string): int {
    |s.messages| + (if NeedsNotice(s) then 1 else 0) - |Closed(s, noticeId)|
  }

  /**
   * A wallet change tells each open row the truth: one in flight may have been submitted, one still waiting was not,
   * and what is not open keeps its text. At most one notice is added, and rows are lost only to the length limit.
   */
  lemma ClosureIsTruthful(s: Store, noticeId: string, i: nat, lower: Folding)
    requires Sound(s, lower) && i < |s.messages|
    ensures var shift := TrimmedAway(s, noticeId);
            && 0 <= shift && (|s.messages| < AI_MAX_MESSAGES ==> shift == 0)
            && (shift <= i ==>
                  var (row, closed) := (s.messages[i], Closed(s, noticeId)[i - shift]);
                  && closed.id == row.id && closed.role == row.role
                  && (row.inFlight ==> closed.content == TransactionInterrupted)
                  && (row.awaiting ==> closed.content == AuthorizationCancelled)
                  && (!Affected(s, row) ==> closed == row))
  {
    hide Create, HiddenSound, StorageSound, OwnedBy, Affected, Closing, Closed, NeedsClosing;
    var row := s.messages[i];
    assert Accounted(s, row);
    ClosedAt(s, noticeId, i);
    ClosingTells(s, row);
  }

  lemma ClosedAt(s: Store, noticeId: string, i: nat)
    requires i < |s.messages|
    ensures var shift := TrimmedAway(s, noticeId);
            && 0 <= shift && (|s.messages| < AI_MAX_MESSAGES ==> shift == 0)
            && (shift <= i ==>
                  Closed(s, noticeId)[i - shift]
                    == if NeedsClosing(s) then Closing(s, s.messages[i]) else s.messages[i])
            && (Affected(s, s.messages[i]) ==> NeedsClosing(s))
  {
    hide Trimmed, Affected, Closing, HadActiveWork;
  }

  lemma ClosingTells(s: Store, row: Message)
    requires Accounted(s, row) && (s.pending.Some? ==> s.active.None?)
    ensures Closing(s, row).id == row.id && Closing(s, row).role == row.role
    ensures row.inFlight ==> Affected(s, row) && Closing(s, row).content == TransactionInterrupted
    ensures row.awaiting ==> Affected(s, row) && Closing(s, row).content == AuthorizationCancelled
    ensures !Affected(s, row) ==> Closing(s, row) == row
  {
  }

  // ------------------------------------------------------------- leaving and returning

  ghost predicate Follows(s: Store, lower: Folding) {
    s.identity == Create(s.wallet.chainId, s.wallet.address, lower)
  }

  /** The transcript of `identity` is put away, as `rows`. */
  ghost predicate PutAway(s: Store, identity: Identity, rows: seq<Message>, lower: Folding) {
    Follows(s, lower) && s.identity != Some(identity) && identity in s.cache && s.cache[identity] == rows
  }

  /** Steps that neither select the identity nor drop the session copy of its transcript. */
  predicate StaysAway(op: Op, identity: Identity, lower: Folding) {
    match op
    case SetWallet(change) => Create(change.next.chainId, change.next.address, lower) != Some(identity)
    case StorageEvent(other) => other != identity
    case StorageCleared => false
    case Destroy => false
    case _ => true
  }

  /** What a transaction that outlives the wallet context adds to the transcript it started in. */
  function Meanwhile(rows: seq<Message>, ops: seq<Op>, identity: Identity): seq<Message> {
    if ops == [] then rows
    else
      var before, op := Meanwhile(rows, ops[..|ops| - 1], identity), ops[|ops| - 1];
      if op.FinishStale? && op.identity == identity && HasRow(before, op.id) then
        Finished(before, identity, op.id, op.outcome)
      else before
  }

  lemma LeavingPutsAway(s: Store, change: Change, lower: Folding)
    requires Follows(s, lower) && s.identity.Some?
    requires Create(change.next.chainId, change.next.address, lower) != s.identity
    ensures PutAway(SetWalletContext(s, change, lower), s.identity.value, Closed(s, change.noticeId), lower)
  {
    hide Create, Closed, SaveHistory, LoadHistory, NeedsClosing;
  }

  lemma AwayChange(s: Store, change: Change, identity: Identity, rows: seq<Message>, lower: Folding)
    requires PutAway(s, identity, rows, lower)
    requires Create(change.next.chainId, change.next.address, lower) != Some(identity)
    ensures PutAway(SetWalletContext(s, change, lower), identity, rows, lower)
  {
    hide Create, Closed, SaveHistory, LoadHistory, NeedsClosing, OpenTranscript, Published;
    var closed := Closed(s, change.noticeId);
    var kept := if s.identity.Some? then CacheTranscript(s, closed, change.writeOk) else s;
    PublishingKeepsCache(OpenTranscript(kept, Create(change.next.chainId, change.next.address, lower), change.readOk),
                         change.next, Create(change.next.chainId, change.next.address, lower));
    PublishingKeepsCache(s.(messages := closed), change.next, Create(change.next.chainId, change.next.address, lower));
  }

  lemma PublishingKeepsCache(s: Store, next: Wallet, identity: Option<Identity>)
    ensures var t := Published(s, next, identity); t.cache == s.cache && t.wallet == next && t.identity == identity
  {
  }

  lemma AwayStep(s: Store, op: Op, identity: Identity, rows: seq<Message>, lower: Folding)
    requires PutAway(s, identity, rows, lower) && StaysAway(op, identity, lower)
    ensures PutAway(Apply(s, op, lower), identity,
                    if op.FinishStale? && op.identity == identity && HasRow(rows, op.id) then
                      Finished(rows, identity, op.id, op.outcome)
                    else rows, lower)
  {
    hide Create, Closed, SaveHistory, LoadHistory, NeedsClosing, Patched, Trimmed, Finished, HasRow, Superseded;
    if op.SetWallet? {
      hide Apply, SetWalletContext;
      AwayChange(s, op.change, identity, rows, lower);
      assert Apply(s, op, lower) == SetWalletContext(s, op.change, lower);
    }
  }

  /**
   * Leaving an identity and coming back shows the closed transcript exactly as it was left, apart from the outcomes
   * of its own transactions that settled meanwhile; whatever happened under other identities leaves no trace.
   */
  lemma {:induction false} ReturningRestores(s: Store, away: Change, ops: seq<Op>, back: Change, lower: Folding)
    requires Follows(s, lower) && s.identity.Some?
    requires Create(away.next.chainId, away.next.address, lower) != s.identity
    requires forall i :: 0 <= i < |ops| ==> StaysAway(ops[i], s.identity.value, lower)
    requires Create(back.next.chainId, back.next.address, lower) == s.identity
    ensures var there := Run(SetWalletContext(s, away, lower), ops, lower);
            SetWalletContext(there, back, lower).messages
              == Meanwhile(Closed(s, away.noticeId), ops, s.identity.value)
  {
    AwayRun(s, away, ops, lower);
    hide Create, Closed, SaveHistory, LoadHistory, NeedsClosing, Run, Meanwhile;
  }

  lemma {:induction false} AwayRun(s: Store, away: Change, ops: seq<Op>, lower: Folding)
    requires Follows(s, lower) && s.identity.Some?
    requires Create(away.next.chainId, away.next.address, lower) != s.identity
    requires forall i :: 0 <= i < |ops| ==> StaysAway(ops[i], s.identity.value, lower)
    ensures PutAway(Run(SetWalletContext(s, away, lower), ops, lower), s.identity.value,
                    Meanwhile(Closed(s, away.noticeId), ops, s.identity.value), lower)
  {
    hide Follows, PutAway, SetWalletContext, Closed, Apply, StaysAway, Create, Finished, HasRow;
    if ops == [] {
      LeavingPutsAway(s, away, lower);
    } else {
      var front := ops[..|ops| - 1];
      AwayRun(s, away, front, lower);
      AwayStep(Run(SetWalletContext(s, away, lower), front, lower), ops[|ops| - 1], s.identity.value,
               Meanwhile(Closed(s, away.noticeId), front, s.identity.value), lower);
    }
  }

  // ------------------------------------------------------------- storage round trip

  /** A row as storage keeps it: a card is replaced by a note that it was shown. */
  function WithoutCard(m: Message): Message {
    if m.card.Some? then m.(content := CardShown(m.card.value), card := None) else m
  }

  lemma {:induction false} PersistedRows(rows: seq<Message>)
    requires Settled(rows)
    ensures |Persisted(rows)| == |rows|
    ensures forall i :: 0 <= i < |rows| ==> Persisted(rows)[i] == WithoutCard(rows[i])
  {
    if rows != [] {
      PersistedRows(rows[..|rows| - 1]);
    }
  }

  /** Saving a closed transcript and loading it gives every row back, in order, with nothing marked as interrupted. */
  lemma SavedLoads(storage: map<Identity, seq<Message>>, identity: Identity, rows: seq<Message>)
    requires Settled(rows) && rows != []
    ensures var loaded := LoadHistory(SaveHistory(storage, identity, rows, true), identity, true);
            |loaded| == |rows| && forall i :: 0 <= i < |rows| ==> loaded[i] == WithoutCard(rows[i])
  {
    PersistedRows(rows);
    hide Persisted;
    forall i | 0 <= i < |rows| ensures Rehydrated(Persisted(rows)[i]) == WithoutCard(rows[i]) {
      assert Still(rows[i]);
    }
  }

  /**
   * Open work closed by leaving is saved by the change itself: even when the session copy is dropped before the
   * return, every row of the closed transcript comes back from storage.
   */
  lemma LeavingIsDurable(s: Store, away: Change, back: Change, lower: Folding)
    requires Follows(s, lower) && VisibleSound(s) && s.identity.Some? && NeedsClosing(s) && s.messages != []
    requires Create(away.next.chainId, away.next.address, lower) != s.identity && away.writeOk
    requires Create(back.next.chainId, back.next.address, lower) == s.identity && back.readOk
    ensures var there := ForgetCached(SetWalletContext(s, away, lower), s.identity.value);
            var (shown, closed) := (SetWalletContext(there, back, lower).messages, Closed(s, away.noticeId));
            |shown| == |closed| && forall i :: 0 <= i < |closed| ==> shown[i] == WithoutCard(closed[i])
  {
    ClosedSettles(s, away.noticeId);
    ClosedNotEmpty(s, away.noticeId);
    SavedLoads(s.storage, s.identity.value, Closed(s, away.noticeId));
    hide *;
    LeavingSaves(s, away, lower);
    ReturningLoads(SetWalletContext(s, away, lower), s.identity.value, back, lower);
  }

  /** A transcript that has nothing to close is left without a write. */
  lemma QuietLeaving(s: Store, away: Change, lower: Folding)
    requires !NeedsClosing(s)
    ensures SetWalletContext(s, away, lower).storage == s.storage
  {
    hide Create, NeedsClosing, SaveHistory, LoadHistory;
  }

  lemma LeavingSaves(s: Store, away: Change, lower: Folding)
    requires Follows(s, lower) && s.identity.Some? && NeedsClosing(s) && away.writeOk
    requires Create(away.next.chainId, away.next.address, lower) != s.identity
    ensures var there := SetWalletContext(s, away, lower);
            && Follows(there, lower) && there.identity != s.identity
            && there.storage == SaveHistory(s.storage, s.identity.value, Closed(s, away.noticeId), true)
  {
    hide Create, Closed, NeedsClosing, SaveHistory, LoadHistory;
  }

  lemma ReturningLoads(s: Store, identity: Identity, back: Change, lower: Folding)
    requires Follows(s, lower) && s.identity != Some(identity) && back.readOk
    requires Create(back.next.chainId, back.next.address, lower) == Some(identity)
    ensures SetWalletContext(ForgetCached(s, identity), back, lower).messages == LoadHistory(s.storage, identity, true)
  {
    hide Create, Closed, NeedsClosing, SaveHistory, LoadHistory;
    if s.identity.Some? {
      var closed := Closed(ForgetCached(s, identity), back.noticeId);
      SavingElsewhere(s.storage, s.identity.value, closed, back.writeOk, identity);
    }
  }

  lemma SavingElsewhere(storage: map<Identity, seq<Message>>, other: Identity, rows: seq<Message>, writeOk: bool,
                        identity: Identity)
    requires other != identity
    ensures LoadHistory(SaveHistory(storage, other, rows, writeOk), identity, true)
         == LoadHistory(storage, identity, true)
  {
    hide Persisted;
  }

  lemma ClosedNotEmpty(s: Store, noticeId: string)
    requires s.messages != []
    ensures Closed(s, noticeId) != []
  {
  }
}
