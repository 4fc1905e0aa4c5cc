/** What each action of the chat store tells in the transcript, row by row. */
module WalletNotices {
  import opened Options
  import opened WalletIdentity
  import opened WalletContext

  // ------------------------------------------------------------- one row

  /** The same row of the same wallet, at rest, with these words. */
  ghost predicate Says(was: Message, now: Message, content: Wording, error: Option<Wording>) {
    && now.id == was.id && now.role == was.role && now.owner == was.owner && now.card == was.card
    && now.local == was.local && now.content == content && now.error == error && !now.streaming
  }

  /** Rows with other ids are what they were, and all rows keep their places. */
  ghost predicate OnlyRow(before: seq<Message>, after: seq<Message>, id: string) {
    |after| == |before| && forall i :: 0 <= i < |before| && before[i].id != id ==> after[i] == before[i]
  }

  /** The rows with the id, and no others, say this now and are neither waiting nor in flight. */
  ghost predicate RowTold(before: seq<Message>, after: seq<Message>, id: string, content: Wording,
                          error: Option<Wording>, awaiting: bool) {
    && OnlyRow(before, after, id)
    && forall i :: 0 <= i < |before| && before[i].id == id ==>
         Says(before[i], after[i], content, error) && after[i].awaiting == awaiting
  }

  // ------------------------------------------------------------- the card

  lemma AskTells(s: Store, card: Card, text: Wording, lower: Folding)
    ensures var t := Apply(s, Ask(card, text), lower);
            if Askable(s, card) then
              && t == s.(pending := Some(card), messages := t.messages)
              && OnlyRow(s.messages, t.messages, card.messageId)
              && forall i :: 0 <= i < |s.messages| && s.messages[i].id == card.messageId ==>
                   Says(s.messages[i], t.messages[i], text, s.messages[i].error) && t.messages[i].awaiting
            else t == s
  {
    hide Askable;
  }

  /** Cancelling closes the card and says so in its row. */
  lemma CancelTells(s: Store, lower: Folding)
    ensures var t := Apply(s, Cancel, lower);
            if s.pending.None? then t == s
            else
              && t == s.(pending := None, messages := t.messages, work := t.work)
              && t.work == s.work.(payload := false, progress := None)
              && RowTold(s.messages, t.messages, s.pending.value.messageId, CancelledByUser, None, false)
  {
  }

  /**
   * Confirming tells a missing wallet and a changed authorization apart, starts the transaction of a card that is still
   * authorized, and keeps the card of an edited batch.
   */
  lemma ConfirmTells(s: Store, edited: bool, lower: Folding)
    requires s.pending.Some? && !s.work.streaming
    ensures var t := Apply(s, Confirm(edited), lower);
            var id := s.pending.value.messageId;
            && t == s.(pending := t.pending, active := t.active, messages := t.messages, work := t.work)
            && (if s.wallet.client == None then
                  && t.pending == None && t.active == s.active
                  && RowTold(s.messages, t.messages, id, WalletDisconnected, Some(WalletDisconnected), false)
                else if !Current(s, s.pending.value.authorization) || !Matches(s, lower) then
                  && t.pending == None && t.active == s.active
                  && RowTold(s.messages, t.messages, id, AuthorizationCancelled, Some(AuthorizationCancelled), false)
                else
                  && OnlyRow(s.messages, t.messages, id) && t.work.streaming && t.work.controller
                  && (if edited then t.pending == s.pending && t.active == s.active
                      else t.pending == None && t.active == Some(id) && t.work.progress == None)
                  && forall i :: 0 <= i < |s.messages| && s.messages[i].id == id ==>
                       && t.messages[i].content == s.messages[i].content && t.messages[i].error == None
                       && t.messages[i].awaiting == edited && (!edited ==> t.messages[i].inFlight))
  {
    hide Current, Matches;
  }

  /** A settled transaction's words stand in its row, which is no longer in flight. */
  lemma ResolveTells(s: Store, content: Wording, error: Option<Wording>, lower: Folding)
    ensures var t := Apply(s, Resolve(content, error), lower);
            if s.active.None? then t == s
            else
              && t == s.(active := None, messages := t.messages)
              && RowTold(s.messages, t.messages, s.active.value, content, error, false)
              && forall i :: 0 <= i < |t.messages| && t.messages[i].id == s.active.value ==> !t.messages[i].inFlight
  {
  }

  /** A batch that was planned again asks again, in the same row. */
  lemma ReplanTells(s: Store, text: Wording, error: Option<Wording>, lower: Folding)
    requires s.pending.Some? && s.work.streaming
    ensures var t := Apply(s, ReplanSettles(text, error), lower);
            && t == s.(messages := t.messages, work := t.work) && !t.work.streaming && !t.work.controller
            && (t.work.payload <==> s.work.payload && error.Some?)
            && RowTold(s.messages, t.messages, s.pending.value.messageId, text, error, true)
  {
  }

  // ------------------------------------------------------------- a new request

  /** What a row of the transcript becomes when a request supersedes the open card. */
  ghost predicate SupersededRow(s: Store, was: Message, now: Message) {
    if s.pending.Some? && was.id == s.pending.value.messageId
    then Says(was, now, SupersededByRequest, None) && !now.awaiting
    else now == was
  }

  lemma SupersedingTells(s: Store)
    ensures |Superseded(s)| == |s.messages|
    ensures forall i :: 0 <= i < |s.messages| ==> SupersededRow(s, s.messages[i], Superseded(s)[i])
  {
  }

  /** The two rows come last, and of the rows before them as many of the newest stay as 200 rows leave room for. */
  ghost predicate Appended(rows: seq<Message>, user: Message, reply: Message, r: seq<Message>) {
    && |r| == (if |rows| + 2 <= 200 then |rows| + 2 else 200)
    && r[|r| - 2] == user && r[|r| - 1] == reply
    && forall i :: 0 <= i < |r| - 2 ==> r[i] == rows[|rows| + 2 - |r| + i]
  }

  lemma TrimmingTwice(rows: seq<Message>, user: Message, reply: Message)
    ensures Appended(rows, user, reply, Trimmed(Trimmed(rows + [user]) + [reply]))
  {
    var first := Trimmed(rows + [user]);
    var r := Trimmed(first + [reply]);
    assert r[|r| - 1] == (first + [reply])[|first|];
    assert r[|r| - 2] == first[|first| - 1] == (rows + [user])[|rows|];
    forall i | 0 <= i < |r| - 2 ensures r[i] == rows[|rows| + 2 - |r| + i] {
      assert r[i] == (first + [reply])[|first| + 1 - |r| + i] == first[|first| + 1 - |r| + i];
    }
  }

  /** The user's words and an empty reply that streams come last, and an open card is superseded. */
  lemma SendTells(s: Store, userId: string, text: Wording, assistantId: string, lower: Folding)
      returns (rows: seq<Message>)
    ensures var t := Apply(s, Send(userId, text, assistantId), lower);
            if s.work.streaming || !Matches(s, lower) then t == s
            else
              && t == s.(messages := t.messages, pending := None, work := t.work)
              && t.work.streaming && t.work.controller && t.work.payload == s.work.payload
              && t.work.progress == (if s.work.progress == Some(Working) then Some(Working) else None)
              && |rows| == |s.messages|
              && (forall i :: 0 <= i < |rows| ==> SupersededRow(s, s.messages[i], rows[i]))
              && Appended(rows, Message(userId, User, text, None, None, false, false, false, false, s.identity),
                          Message(assistantId, Assistant, Words(""), None, None, true, false, false, false, s.identity),
                          t.messages)
  {
    hide Matches, Trimmed, SupersededRow, Appended;
    rows := Superseded(s);
    SupersedingTells(s);
    hide Superseded;
    TrimmingTwice(rows, Message(userId, User, text, None, None, false, false, false, false, s.identity),
                  Message(assistantId, Assistant, Words(""), None, None, true, false, false, false, s.identity));
  }

  // ------------------------------------------------------------- leaving, tearing down and coming back

  /** Work that goes on without a card or a transaction. */
  ghost predicate BusyAlone(s: Store) {
    && s.pending.None? && s.active.None?
    && (s.work.streaming || s.work.controller || s.work.payload || s.work.progress == Some(Working))
  }

  /** A notice that work was cancelled, of the wallet whose work it was. */
  ghost predicate CancelNotice(s: Store, noticeId: string, m: Message) {
    && m.id == noticeId && m.role == Assistant && m.content == WorkCancelled && m.error == None && m.local
    && m.owner == s.identity && !m.streaming && !m.awaiting && !m.inFlight
  }

  /** A closure says at the end that work was cancelled when nothing else in the transcript would, and only then. */
  lemma ClosureNotice(s: Store, noticeId: string)
    ensures var closed := Closed(s, noticeId);
            && (BusyAlone(s) ==> closed != [] && CancelNotice(s, noticeId, closed[|closed| - 1])
                                 && |closed| == (if |s.messages| + 1 <= 200 then |s.messages| + 1 else 200))
            && (!BusyAlone(s) && |s.messages| <= 200 ==>
                  |closed| == |s.messages| && forall i :: 0 <= i < |closed| ==> closed[i].id == s.messages[i].id)
  {
    hide Closed, BusyAlone, CancelNotice;
    NoticeNeeded(s);
    if NeedsNotice(s) {
      ClosureAdds(s, noticeId);
    } else if |s.messages| <= 200 {
      ClosureKeeps(s, noticeId);
    }
  }

  lemma ClosureAdds(s: Store, noticeId: string)
    requires NeedsNotice(s)
    ensures var closed := Closed(s, noticeId);
            && |closed| == (if |s.messages| + 1 <= 200 then |s.messages| + 1 else 200)
            && CancelNotice(s, noticeId, closed[|closed| - 1])
  {
    hide Closing, Affected, HadActiveWork, NeedsNotice;
    var rows := seq(|s.messages|, i requires 0 <= i < |s.messages| => Closing(s, s.messages[i]));
    var notice := Note(noticeId, WorkCancelled, s.identity);
    assert Closed(s, noticeId) == Trimmed(rows + [notice]);
    assert (rows + [notice])[|rows|] == notice;
  }

  lemma ClosureKeeps(s: Store, noticeId: string)
    requires !NeedsNotice(s) && |s.messages| <= 200
    ensures var closed := Closed(s, noticeId);
            |closed| == |s.messages| && forall i :: 0 <= i < |closed| ==> closed[i].id == s.messages[i].id
  {
    forall i | 0 <= i < |s.messages| ensures Closing(s, s.messages[i]).id == s.messages[i].id {
      ClosingKeepsId(s, s.messages[i]);
    }
    hide Closing, Affected, HadActiveWork, NeedsNotice;
  }

  lemma ClosingKeepsId(s: Store, m: Message)
    ensures Closing(s, m).id == m.id
  {
  }

  lemma NoticeNeeded(s: Store)
    ensures NeedsNotice(s) <==> BusyAlone(s)
  {
  }

  /** How one row is closed: the card's, the transaction's, a tool's that streams, and a reply's that streams. */
  lemma ClosingTells(s: Store, m: Message)
    ensures var now := Closing(s, m);
            if s.pending.Some? && s.pending.value.messageId == m.id then
              Says(m, now, AuthorizationCancelled, Some(AuthorizationCancelled)) && !now.awaiting && !now.inFlight
            else if s.active == Some(m.id) then
              Says(m, now, TransactionInterrupted, Some(TransactionInterrupted)) && !now.awaiting && !now.inFlight
            else if m.streaming && m.role == Tool then
              Says(m, now, WorkCancelled, Some(WorkCancelled)) && !now.awaiting && !now.inFlight
            else Says(m, now, m.content, m.error) && now.awaiting == m.awaiting && now.inFlight == m.inFlight
  {
  }

  /** At the end of a session waiting rows expire, running ones are told to be so, and the rest keep their words. */
  lemma DestroyTells(s: Store, lower: Folding)
    ensures var t := Apply(s, Destroy, lower);
            && t.wallet == s.wallet && t.identity == s.identity && t.storage == s.storage && t.cache == map[]
            && t.pending == None && t.active == None && t.work == IDLE && t.epoch == s.epoch + 1
            && |t.messages| == |s.messages|
            && forall i :: 0 <= i < |t.messages| ==>
                 var (was, now) := (s.messages[i], t.messages[i]);
                 && (was.awaiting || (s.pending.Some? && s.pending.value.messageId == was.id) ==>
                       Says(was, now, ConfirmationExpired, Some(ConfirmationExpired)))
                 && (!was.awaiting && (s.pending.None? || s.pending.value.messageId != was.id)
                     && (was.inFlight || s.active == Some(was.id)) ==>
                       Says(was, now, SessionEnded, Some(SessionEnded)))
                 && ((was.awaiting || was.inFlight || s.active == Some(was.id)
                      || (s.pending.Some? && s.pending.value.messageId == was.id))
                     || Says(was, now, was.content, was.error))
  {
  }

  /** A row that storage gives back says whether its transaction, its confirmation or its reply was cut short. */
  lemma LoadTells(storage: map<Identity, seq<Message>>, identity: Identity, i: nat)
    requires identity in storage && i < |storage[identity]|
    ensures var loaded := LoadHistory(storage, identity, true);
            && |loaded| == |storage[identity]|
            && var (was, now) := (storage[identity][i], loaded[i]);
               if was.role == Tool && was.inFlight then
                 Says(was, now, RestoredTransaction, Some(RestoredTransaction)) && !now.awaiting && !now.inFlight
               else if was.streaming then
                 Says(was, now, was.content, if was.error.Some? then was.error else Some(RestoredStream))
               else if was.role == Tool && was.awaiting then
                 Says(was, now, RestoredConfirmation, Some(Interrupted)) && !now.awaiting
               else now == was
  {
  }

  // ------------------------------------------------------------- a transaction that outlives its context

  /** The rows of a transcript after an outcome was written into it; the notice, if there is one, comes last. */
  ghost predicate OutcomeTold(before: seq<Message>, after: seq<Message>, identity: Identity, id: string,
                              outcome: Outcome) {
    var notice := if outcome.notice.Some? then 1 else 0;
    && |after| == |before| + notice
    && (forall i :: 0 <= i < |before| && before[i].id != id ==> after[i] == before[i])
    && (forall i :: 0 <= i < |before| && before[i].id == id ==>
          Says(before[i], after[i], outcome.content, outcome.error) && !after[i].awaiting && !after[i].inFlight)
    && (outcome.notice.Some? ==>
          && after[|before|].id == outcome.noticeId && after[|before|].content == outcome.notice.value
          && after[|before|].role == Assistant && after[|before|].owner == Some(identity)
          && !after[|before|].streaming && !after[|before|].awaiting && !after[|before|].inFlight)
  }

  lemma FinishedTells(rows: seq<Message>, identity: Identity, id: string, outcome: Outcome)
    ensures |rows| < 200 ==> OutcomeTold(rows, Finished(rows, identity, id, outcome), identity, id, outcome)
    ensures |Finished(rows, identity, id, outcome)| <= 200
  {
  }

  /** The transcript of an identity: the visible one, its session copy, or what storage has. */
  function TranscriptOf(s: Store, identity: Identity, readOk: bool): seq<Message> {
    if s.identity == Some(identity) then s.messages
    else if identity in s.cache then s.cache[identity]
    else LoadHistory(s.storage, identity, readOk)
  }

  /** The outcome is written into the transcript the transaction started in, and into no other. */
  lemma StaleOutcomeTold(s: Store, identity: Identity, id: string, outcome: Outcome, writeOk: bool, readOk: bool,
                         lower: Folding)
    requires |TranscriptOf(s, identity, readOk)| < 200
    requires exists i :: 0 <= i < |TranscriptOf(s, identity, readOk)| && TranscriptOf(s, identity, readOk)[i].id == id
    requires s.identity == Some(identity) ==> Unused(s, outcome.noticeId)
    ensures var t := Apply(s, FinishStale(identity, id, outcome, writeOk, readOk), lower);
            var before := TranscriptOf(s, identity, readOk);
            if s.identity == Some(identity) then
              t == s.(messages := t.messages) && OutcomeTold(before, t.messages, identity, id, outcome)
            else
              && identity in t.cache && t == s.(cache := s.cache[identity := t.cache[identity]], storage := t.storage)
              && OutcomeTold(before, t.cache[identity], identity, id, outcome)
              && (!writeOk ==> t.storage == s.storage)
              && (writeOk ==> t.storage == SaveHistory(s.storage, identity, t.cache[identity], true))
  {
    hide SaveHistory, LoadHistory, OutcomeTold, Finished, Unused;
    var before := TranscriptOf(s, identity, readOk);
    FinishedTells(before, identity, id, outcome);
    assert HasRow(before, id);
    NoWrite(s.storage, identity, Finished(before, identity, id, outcome));
  }

  lemma NoWrite(storage: map<Identity, seq<Message>>, identity: Identity, rows: seq<Message>)
    ensures SaveHistory(storage, identity, rows, false) == storage
  {
  }

  // ------------------------------------------------------------- the rest of the tab's state

  /** A transcript without a row that can be stored clears what was stored; others in storage are left alone. */
  lemma SavingTells(storage: map<Identity, seq<Message>>, identity: Identity, rows: seq<Message>, other: Identity)
    ensures var after := SaveHistory(storage, identity, rows, true);
            && (other != identity ==> LoadHistory(after, other, true) == LoadHistory(storage, other, true))
            && ((forall i :: 0 <= i < |rows| ==> rows[i].streaming) ==> LoadHistory(after, identity, true) == [])
            && LoadHistory(after, identity, false) == []
  {
    if forall i :: 0 <= i < |rows| ==> rows[i].streaming {
      NothingPersisted(rows);
    }
    hide Persisted;
  }

  lemma {:induction false} NothingPersisted(rows: seq<Message>)
    requires forall i :: 0 <= i < |rows| ==> rows[i].streaming
    ensures Persisted(rows) == []
  {
    if rows != [] {
      NothingPersisted(rows[..|rows| - 1]);
    }
  }

  /** Session copies that another tab's changes make stale go, but never the visible transcript. */
  lemma ForgettingTells(s: Store, identity: Identity, lower: Folding)
    ensures var one := Apply(s, StorageEvent(identity), lower);
            var all := Apply(s, StorageCleared, lower);
            && one == s.(cache := one.cache) && all == s.(cache := all.cache)
            && (forall k :: k in one.cache <==> k in s.cache && (k != identity || s.identity == Some(k)))
            && (forall k :: k in all.cache <==> k in s.cache && s.identity == Some(k))
            && (forall k :: k in one.cache ==> one.cache[k] == s.cache[k])
            && (forall k :: k in all.cache ==> all.cache[k] == s.cache[k])
  {
  }

  /** An attachment, a progress report and the end of a turn change what the tab is busy with, and nothing else. */
  lemma WorkTells(s: Store, payload: bool, progress: Option<Progress>, lower: Folding)
    ensures Apply(s, Attach(payload), lower)
         == s.(work := Work(s.work.streaming, s.work.controller, payload, s.work.progress))
    ensures Apply(s, Report(progress), lower)
         == s.(work := Work(s.work.streaming, s.work.controller, s.work.payload, progress))
    ensures var t := Apply(s, EndTurn, lower);
            if s.active.Some? then t == s
            else t == s.(work := t.work) && t.work == Work(false, false, false, s.work.progress)
  {
  }

  /** Amending a row changes its words and whether it streams; waiting and running rows stay so. */
  lemma AmendTells(s: Store, id: string, content: Wording, error: Option<Wording>, streaming: bool, lower: Folding)
    ensures var t := Apply(s, Amend(id, content, error, streaming), lower);
            && t == s.(messages := t.messages) && OnlyRow(s.messages, t.messages, id)
            && forall i :: 0 <= i < |s.messages| && s.messages[i].id == id ==>
                 var (was, now) := (s.messages[i], t.messages[i]);
                 && Says(was, now.(streaming := false), content, error) && now.streaming == streaming
                 && now.awaiting == was.awaiting && now.inFlight == was.inFlight
  {
  }
}
