/** The chat store around wallet changes: its fields as a value, and each store action as a function on it. */
module WalletContext {
  import opened Options
  import opened WalletIdentity

  const AI_MAX_MESSAGES: nat := 200

  /** What a row says: words from outside, or one of the store's own notices. */
  datatype Wording =
    | Words(text: string)
    | CardShown(kind: string)
    | AuthorizationCancelled | WorkCancelled | TransactionInterrupted
    | WalletDisconnected | CancelledByUser | SupersededByRequest
    | ConfirmationExpired | SessionEnded
    | RestoredTransaction | RestoredConfirmation | RestoredStream | Interrupted

  datatype Role = User | Assistant | Tool

  /**
   * A row of a transcript. `owner` is not a field of the source: it records under which identity the row was added,
   * so that the transcripts can be said to hold no one else's rows.
   */
  datatype Message = Message(
    id: string, role: Role, content: Wording, error: Option<Wording>, card: Option<string>,
    streaming: bool, awaiting: bool, inFlight: bool, local: bool, owner: Option<Identity>)

  /** What the application shell publishes; client and signer are numbered instances. */
  datatype Wallet = Wallet(client: Option<nat>, address: Option<string>, signing: Option<nat>, chainId: string)

  datatype Authorization =
    Authorization(originAddress: string, chainId: string, clientGeneration: nat, signerGeneration: nat)

  /** A confirmation card: the tool row it belongs to and the authorization its action was prepared under. */
  datatype Card = Card(messageId: string, authorization: Authorization)

  datatype Progress = Working | Ready | Failed | Unconfirmed

  /** What the tab is busy with, apart from the card and the transaction. */
  datatype Work = Work(streaming: bool, controller: bool, payload: bool, progress: Option<Progress>)

  const IDLE := Work(false, false, false, None)

  datatype Store = Store(
    wallet: Wallet, identity: Option<Identity>,
    clientGeneration: nat, signerGeneration: nat, epoch: nat,
    messages: seq<Message>, pending: Option<Card>, active: Option<string>, work: Work,
    cache: map<Identity, seq<Message>>, storage: map<Identity, seq<Message>>)

  // ------------------------------------------------------------- authorization

  /** An empty address is no address. */
  function Capture(s: Store): Option<Authorization> {
    if s.wallet.address in {None, Some("")} || s.wallet.client.None? then None
    else Some(Authorization(s.wallet.address.value, s.wallet.chainId, s.clientGeneration, s.signerGeneration))
  }

  predicate Current(s: Store, a: Authorization) {
    && s.wallet.client.Some?
    && s.wallet.address == Some(a.originAddress) && s.wallet.chainId == a.chainId
    && s.clientGeneration == a.clientGeneration && s.signerGeneration == a.signerGeneration
  }

  // ------------------------------------------------------------- transcripts

  function Trimmed(rows: seq<Message>): (r: seq<Message>)
    ensures |r| <= AI_MAX_MESSAGES && |r| <= |rows| && r == rows[|rows| - |r|..]
    ensures |rows| <= AI_MAX_MESSAGES ==> r == rows
  {
    if |rows| <= AI_MAX_MESSAGES then rows else rows[|rows| - AI_MAX_MESSAGES..]
  }

  function PendingId(s: Store): Option<string> {
    if s.pending.Some? then Some(s.pending.value.messageId) else None
  }

  function Shut(m: Message, notice: Wording): Message {
    m.(content := notice, error := Some(notice), streaming := false, awaiting := false, inFlight := false)
  }

  function Closing(s: Store, m: Message): Message {
    if PendingId(s) == Some(m.id) then Shut(m, AuthorizationCancelled)
    else if s.active == Some(m.id) then Shut(m, TransactionInterrupted)
    else if m.streaming then
      if m.role == Tool then Shut(m, WorkCancelled) else m.(streaming := false)
    else m
  }

  predicate Affected(s: Store, m: Message) {
    PendingId(s) == Some(m.id) || s.active == Some(m.id) || m.streaming
  }

  predicate HadActiveWork(s: Store) {
    || s.work.streaming || s.work.controller || s.pending.Some? || s.active.Some? || s.work.payload
    || s.work.progress == Some(Working)
  }

  predicate NeedsNotice(s: Store) {
    HadActiveWork(s) && s.pending.None? && s.active.None?
  }

  predicate NeedsClosing(s: Store) {
    NeedsNotice(s) || exists i :: 0 <= i < |s.messages| && Affected(s, s.messages[i])
  }

  function Note(id: string, content: Wording, owner: Option<Identity>): Message {
    Message(id, Assistant, content, None, None, false, false, false, true, owner)
  }

  /** The transcript after a change of wallet or network: open work is closed, and untouched rows stay as they are. */
  function Closed(s: Store, noticeId: string): seq<Message> {
    if !NeedsClosing(s) then s.messages
    else
      var rows := seq(|s.messages|, i requires 0 <= i < |s.messages| => Closing(s, s.messages[i]));
      Trimmed(if NeedsNotice(s) then rows + [Note(noticeId, WorkCancelled, s.identity)] else rows)
  }

  /** Every row with the id is replaced by its patched form. */
  function Patched(rows: seq<Message>, id: string, patch: Message -> Message): (r: seq<Message>)
    ensures |r| == |rows|
    ensures forall i :: 0 <= i < |rows| ==> r[i] == if rows[i].id == id then patch(rows[i]) else rows[i]
  {
    seq(|rows|, i requires 0 <= i < |rows| => if rows[i].id == id then patch(rows[i]) else rows[i])
  }

  function Expiring(s: Store, m: Message): Message {
    var pending := PendingId(s) == Some(m.id) || m.awaiting;
    var inFlight := s.active == Some(m.id) || m.inFlight;
    if pending then Shut(m, ConfirmationExpired)
    else if inFlight then Shut(m, SessionEnded)
    else m.(streaming := false)
  }

  // ------------------------------------------------------------- browser storage

  /** The rows written to storage: those not streaming, without their cards. */
  function Persisted(rows: seq<Message>): (r: seq<Message>)
    ensures |r| <= |rows|
  {
    if rows == [] then []
    else
      var last := rows[|rows| - 1];
      var kept :=
        if last.streaming then []
        else if last.card.Some? then
          [last.(content := CardShown(last.card.value), card := None)]
        else [last];
      Persisted(rows[..|rows| - 1]) + kept
  }

  /** Writes a transcript; an empty one clears the stored one. */
  function SaveHistory(storage: map<Identity, seq<Message>>, identity: Identity, rows: seq<Message>, writeOk: bool)
    : map<Identity, seq<Message>>
  {
    if !writeOk then storage
    else if Persisted(rows) == [] then storage - {identity}
    else storage[identity := Persisted(rows)]
  }

  function Rehydrated(m: Message): Message {
    if m.role == Tool && m.inFlight then Shut(m, RestoredTransaction)
    else if m.streaming then m.(streaming := false, error := Some(m.error.GetOr(RestoredStream)))
    else if m.role == Tool && m.awaiting then
      m.(content := RestoredConfirmation, error := Some(Interrupted), awaiting := false)
    else m
  }

  function LoadHistory(storage: map<Identity, seq<Message>>, identity: Identity, readOk: bool): seq<Message> {
    if readOk && identity in storage then
      var rows := storage[identity];
      seq(|rows|, i requires 0 <= i < |rows| => Rehydrated(rows[i]))
    else []
  }

  // ------------------------------------------------------------- the wallet setter

  /** A wallet change: the ids, and whether browser storage works, come from outside. */
  datatype Change = Change(next: Wallet, noticeId: string, writeOk: bool, readOk: bool)

  /** Nothing but transcripts differ. */
  predicate SameContext(s: Store, t: Store) {
    && t.wallet == s.wallet && t.identity == s.identity && t.clientGeneration == s.clientGeneration
    && t.signerGeneration == s.signerGeneration && t.epoch == s.epoch && t.pending == s.pending
    && t.active == s.active && t.work == s.work
  }

  /** Puts the closed transcript away; it is written to storage only when closing it changed a row. */
  function CacheTranscript(s: Store, closed: seq<Message>, writeOk: bool): (t: Store)
    requires s.identity.Some?
    ensures SameContext(s, t)
  {
    s.(cache := s.cache[s.identity.value := closed],
       storage := if NeedsClosing(s) then SaveHistory(s.storage, s.identity.value, closed, writeOk) else s.storage)
  }

  /** Shows the session copy of a transcript, or else loads it and keeps it for the session. */
  function OpenTranscript(s: Store, identity: Option<Identity>, readOk: bool): (t: Store)
    ensures SameContext(s, t) && t.storage == s.storage
    ensures forall k :: k in s.cache ==> k in t.cache && t.cache[k] == s.cache[k]
  {
    if identity.None? then s.(messages := [])
    else if identity.value in s.cache then s.(messages := s.cache[identity.value])
    else
      var loaded := LoadHistory(s.storage, identity.value, readOk);
      s.(messages := loaded, cache := s.cache[identity.value := loaded])
  }

  /** The new context and the cleared authorization state, in one update. */
  function Published(s: Store, next: Wallet, identity: Option<Identity>): Store {
    s.(wallet := next, identity := identity,
       clientGeneration := s.clientGeneration + (if next.client != s.wallet.client then 1 else 0),
       signerGeneration := s.signerGeneration + (if next.signing != s.wallet.signing then 1 else 0),
       epoch := s.epoch + 1, pending := None, active := None, work := IDLE)
  }

  function SetWalletContext(s: Store, change: Change, lower: Folding): Store {
    if change.next == s.wallet then s
    else
      var candidate := Create(change.next.chainId, change.next.address, lower);
      var closed := Closed(s, change.noticeId);
      var kept := if s.identity.Some? then CacheTranscript(s, closed, change.writeOk) else s;
      var shown :=
        if candidate == s.identity then s.(messages := closed)
        else OpenTranscript(kept, candidate, change.readOk);
      Published(shown, change.next, candidate)
  }

  // ------------------------------------------------------------- the other actions

  /** What a settled executor writes on its row, and the notice it may add under a generated id. */
  datatype Outcome = Outcome(content: Wording, error: Option<Wording>, notice: Option<Wording>, noticeId: string)

  datatype Op =
    | SetWallet(change: Change)
    | Add(row: Message)
    | Amend(id: string, content: Wording, error: Option<Wording>, streaming: bool)
    | Send(userId: string, text: Wording, assistantId: string)
    | EndTurn
    | Ask(card: Card, text: Wording)
    | Confirm(edited: bool)
    | ReplanSettles(text: Wording, error: Option<Wording>)
    | Cancel
    | Resolve(content: Wording, error: Option<Wording>)
    | Attach(payload: bool)
    | Report(progress: Option<Progress>)
    | ClearHistory
    | Destroy
    | Persist
    | FinishStale(identity: Identity, id: string, outcome: Outcome, writeOk: bool, readOk: bool)
    | SiblingWrites(identity: Identity, rows: seq<Message>)
    | SiblingClears
    | StorageEvent(identity: Identity)
    | StorageCleared

  function AddRow(s: Store, row: Message): Store {
    s.(messages := Trimmed(s.messages + [row]))
  }

  /** Generated ids are unique, so that of an open card never comes again. */
  predicate Unused(s: Store, id: string) {
    PendingId(s) != Some(id)
  }

  predicate Addable(s: Store, row: Message) {
    row.owner == s.identity && !row.awaiting && !row.inFlight && Unused(s, row.id)
  }

  /** The selected transcript is that of the published wallet. */
  predicate Matches(s: Store, lower: Folding) {
    s.identity.Some? && s.identity == Create(s.wallet.chainId, s.wallet.address, lower)
  }

  function Superseded(s: Store): seq<Message> {
    if s.pending.None? then s.messages
    else
      Patched(s.messages, s.pending.value.messageId, (m: Message) =>
        m.(content := SupersededByRequest, error := None, streaming := false, awaiting := false))
  }

  /** A new request supersedes an open card, starts a streaming turn and clears the progress of work that is over. */
  function SendMessage(s: Store, userId: string, text: Wording, assistantId: string, lower: Folding): Store {
    if s.work.streaming || !Matches(s, lower) then s
    else
      var user := Message(userId, User, text, None, None, false, false, false, false, s.identity);
      var reply := Message(assistantId, Assistant, Words(""), None, None, true, false, false, false, s.identity);
      var progress := if s.work.progress == Some(Working) then s.work.progress else None;
      s.(work := s.work.(streaming := true, controller := true, progress := progress), pending := None,
         messages := Trimmed(Trimmed(Superseded(s) + [user]) + [reply]))
  }

  /** Cards are shown while no transaction runs, on tool rows, under an authorization that is still current. */
  predicate Askable(s: Store, card: Card) {
    && s.pending.None? && s.active.None? && Current(s, card.authorization)
    && forall i :: 0 <= i < |s.messages| && s.messages[i].id == card.messageId ==> s.messages[i].role == Tool
  }

  function ShowCard(s: Store, card: Card, text: Wording): Store {
    s.(pending := Some(card),
       messages := Patched(s.messages, card.messageId, (m: Message) =>
         m.(content := text, streaming := false, awaiting := true)))
  }

  /** Confirming starts the transaction; confirming an edited batch only plans it again, with the card still open. */
  function ConfirmAction(s: Store, edited: bool, lower: Folding): Store {
    if s.pending.None? || s.work.streaming then s
    else
      var id := s.pending.value.messageId;
      if s.wallet.client.None? then
        s.(pending := None, work := s.work.(payload := false, progress := None),
           messages := Patched(s.messages, id, (m: Message) =>
             m.(content := WalletDisconnected, error := Some(WalletDisconnected), streaming := false,
                awaiting := false)))
      else if !Current(s, s.pending.value.authorization) || !Matches(s, lower) then
        s.(pending := None, work := s.work.(payload := false, progress := None),
           messages := Patched(s.messages, id, (m: Message) =>
             m.(content := AuthorizationCancelled, error := Some(AuthorizationCancelled),
                streaming := false, awaiting := false)))
      else if edited then
        s.(work := s.work.(streaming := true, controller := true),
           messages := Patched(s.messages, id, (m: Message) => m.(error := None, awaiting := true)))
      else
        s.(pending := None, active := Some(id),
           work := s.work.(streaming := true, controller := true, progress := None),
           messages := Patched(s.messages, id, (m: Message) =>
             m.(error := None, streaming := false, awaiting := false, inFlight := true)))
  }

  /** The edited batch was planned again, or its error is shown; either way the same card asks again. */
  function SettleReplan(s: Store, text: Wording, error: Option<Wording>): Store {
    if s.pending.None? || !s.work.streaming then s
    else
      s.(work := s.work.(streaming := false, controller := false, payload := s.work.payload && error.Some?),
         messages := Patched(s.messages, s.pending.value.messageId, (m: Message) =>
           m.(content := text, error := error, streaming := false, awaiting := true)))
  }

  function CancelAction(s: Store): Store {
    if s.pending.None? then s
    else
      s.(pending := None, work := s.work.(payload := false, progress := None),
         messages := Patched(s.messages, s.pending.value.messageId, (m: Message) =>
           m.(content := CancelledByUser, error := None, streaming := false, awaiting := false)))
  }

  /** The executor of the confirmed transaction settled while its context was still the current one. */
  function ResolveTransaction(s: Store, content: Wording, error: Option<Wording>): Store {
    if s.active.None? then s
    else
      s.(active := None,
         messages := Patched(s.messages, s.active.value, (m: Message) =>
           m.(content := content, error := error, streaming := false, awaiting := false, inFlight := false)))
  }

  function Cleared(s: Store): Store {
    if s.active.Some? then s
    else
      s.(messages := [], pending := None, work := IDLE,
         epoch := s.epoch + 1,
         cache := if s.identity.Some? then s.cache[s.identity.value := []] else s.cache,
         storage := if s.identity.Some? then s.storage - {s.identity.value} else s.storage)
  }

  function Destroyed(s: Store): Store {
    s.(messages := seq(|s.messages|, i requires 0 <= i < |s.messages| => Expiring(s, s.messages[i])),
       pending := None, active := None, work := IDLE,
       epoch := s.epoch + 1, cache := map[])
  }

  predicate HasRow(rows: seq<Message>, id: string) {
    exists i :: 0 <= i < |rows| && rows[i].id == id
  }

  function Finished(rows: seq<Message>, identity: Identity, id: string, outcome: Outcome): seq<Message> {
    var patched := Patched(rows, id, (m: Message) =>
      m.(content := outcome.content, error := outcome.error, streaming := false, awaiting := false, inFlight := false));
    Trimmed(
      if outcome.notice.Some? then patched + [Note(outcome.noticeId, outcome.notice.value, Some(identity))]
      else patched)
  }

  /** A transaction that outlives its wallet context settles its row in the transcript it started in. */
  function FinishStaleTool(s: Store, op: Op): Store
    requires op.FinishStale?
  {
    var visible := s.identity == Some(op.identity);
    var source :=
      if visible then s.messages
      else if op.identity in s.cache then s.cache[op.identity]
      else LoadHistory(s.storage, op.identity, op.readOk);
    if !HasRow(source, op.id) || (visible && !Unused(s, op.outcome.noticeId)) then s
    else
      var updated := Finished(source, op.identity, op.id, op.outcome);
      if visible then s.(messages := updated)
      else s.(cache := s.cache[op.identity := updated],
              storage := SaveHistory(s.storage, op.identity, updated, op.writeOk))
  }

  /** Only the cached copy of a hidden transcript is dropped; the visible one is live state. */
  function ForgetCached(s: Store, identity: Identity): Store {
    if s.identity == Some(identity) then s else s.(cache := s.cache - {identity})
  }

  function ForgetHidden(s: Store): Store {
    s.(cache := map k | k in s.cache && s.identity == Some(k) :: s.cache[k])
  }

  function Apply(s: Store, op: Op, lower: Folding): Store {
    match op
    case SetWallet(change) => SetWalletContext(s, change, lower)
    case Add(row) => if Addable(s, row) then AddRow(s, row) else s
    case Amend(id, content, error, streaming) =>
      s.(messages := Patched(s.messages, id, (m: Message) =>
        m.(content := content, error := error, streaming := streaming)))
    case Send(userId, text, assistantId) => SendMessage(s, userId, text, assistantId, lower)
    case EndTurn =>
      if s.active.Some? then s
      else s.(work := s.work.(streaming := false, payload := false, controller := false))
    case Ask(card, text) => if Askable(s, card) then ShowCard(s, card, text) else s
    case Confirm(edited) => ConfirmAction(s, edited, lower)
    case ReplanSettles(text, error) => SettleReplan(s, text, error)
    case Cancel => CancelAction(s)
    case Resolve(content, error) => ResolveTransaction(s, content, error)
    case Attach(payload) => s.(work := s.work.(payload := payload))
    case Report(progress) => s.(work := s.work.(progress := progress))
    case ClearHistory => Cleared(s)
    case Destroy => Destroyed(s)
    case Persist =>
      if s.identity.None? then s
      else s.(storage := SaveHistory(s.storage, s.identity.value, s.messages, true))
    case FinishStale(_, _, _, _, _) => FinishStaleTool(s, op)
    case SiblingWrites(identity, rows) => s.(storage := s.storage[identity := rows])
    case SiblingClears => s.(storage := map[])
    case StorageEvent(identity) => ForgetCached(s, identity)
    case StorageCleared => ForgetHidden(s)
  }

  function Run(s: Store, ops: seq<Op>, lower: Folding): Store {
    if ops == [] then s else Apply(Run(s, ops[..|ops| - 1], lower), ops[|ops| - 1], lower)
  }

  const NO_WALLET := Wallet(None, None, None, "")

  /** The store before the first wallet is published. */
  function Initial(chainId: string, storage: map<Identity, seq<Message>>): Store {
    Store(NO_WALLET.(chainId := chainId), None, 0, 0, 0, [], None, None, IDLE, map[], storage)
  }
}
