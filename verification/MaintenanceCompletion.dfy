/** The bounded table of maintenance confirmations: results stay, work holds a slot, closed tokens do nothing. */
module MaintenanceCompletion {
  import opened Options

  const MAX_COMPLETED := 128

  /** What identifies one command inside a wallet's session. */
  datatype Key = Key(providerUrl: string, leaseUuid: string, operation: string, idempotencyKey: string)

  /** A command; `scope` is the wallet and network it belongs to. */
  datatype Command = Command(scope: string, key: Key, payloadHash: string, recovery: bool)

  datatype Outcome = Succeeded | Failed | Unconfirmed | Cancelled

  datatype MaintenanceResult = MaintenanceResult(outcome: Outcome, result: string, url: Option<string>)

  datatype Record = Record(result: MaintenanceResult, payloadHash: string)

  datatype Slot = Slot(owners: set<nat>, pending: bool)

  /** Names one session of a scope; generations are never used twice. */
  datatype Epoch = Epoch(scope: string, generation: nat)

  datatype Session = Session(epoch: Epoch, results: map<Key, Record>, reservations: map<Key, Slot>)

  datatype Reservation = Reservation(epoch: Epoch, owner: nat, keys: seq<Key>)

  datatype Table = Table(sessions: map<string, Session>, nextSymbol: nat)

  // ------------------------------------------------------------- one session

  function Used(s: Session): nat {
    |s.results| + |s.reservations|
  }

  /** The keys of a batch, each once, in the order of first mention. */
  function UniqueKeys(commands: seq<Command>): (keys: seq<Key>)
    ensures forall i, j :: 0 <= i < j < |keys| ==> keys[i] != keys[j]
    ensures forall k :: k in keys <==> exists i :: 0 <= i < |commands| && commands[i].key == k
  {
    if commands == [] then []
    else
      var keys := UniqueKeys(commands[..|commands| - 1]);
      var key := commands[|commands| - 1].key;
      assert commands[|commands| - 1].key == key;
      if key in keys then keys else keys + [key]
  }

  /** Whether the last mention of a key asks to recover earlier work. */
  predicate Recovers(commands: seq<Command>, key: Key) {
    commands != [] &&
    var last := |commands| - 1;
    if commands[last].key == key then commands[last].recovery else Recovers(commands[..last], key)
  }

  /** The keys that need a slot of their own. */
  function NewKeys(s: Session, commands: seq<Command>, keys: seq<Key>): (added: seq<Key>)
    requires forall i, j :: 0 <= i < j < |keys| ==> keys[i] != keys[j]
    ensures forall i, j :: 0 <= i < j < |added| ==> added[i] != added[j]
    ensures forall k :: k in added <==> k in keys && !Recovers(commands, k) && k !in s.results && k !in s.reservations
    ensures |added| <= |keys|
  {
    if keys == [] then []
    else
      var last := keys[|keys| - 1];
      NewKeys(s, commands, keys[..|keys| - 1])
      + (if !Recovers(commands, last) && last !in s.results && last !in s.reservations then [last] else [])
  }

  function WithSlots(s: Session, keys: seq<Key>): Session {
    if keys == [] then s
    else
      var front := WithSlots(s, keys[..|keys| - 1]);
      front.(reservations := front.reservations[keys[|keys| - 1] := Slot({}, false)])
  }

  datatype Joined = Joined(session: Session, keys: seq<Key>)

  /** One owner joins the slot of a key, creating it only while there is room. */
  function JoinOne(j: Joined, key: Key, owner: nat): Joined {
    var s := j.session;
    if key in s.results then j
    else if key in s.reservations then
      var slot := s.reservations[key];
      Joined(s.(reservations := s.reservations[key := slot.(owners := slot.owners + {owner})]), j.keys + [key])
    else if Used(s) < MAX_COMPLETED then
      Joined(s.(reservations := s.reservations[key := Slot({owner}, false)]), j.keys + [key])
    else j
  }

  function JoinAll(s: Session, keys: seq<Key>, owner: nat): Joined {
    if keys == [] then Joined(s, []) else JoinOne(JoinAll(s, keys[..|keys| - 1], owner), keys[|keys| - 1], owner)
  }

  /** Admission of a whole batch: refused, or every new command holds a slot. */
  function Admit(s: Session, commands: seq<Command>, owner: nat): Option<Joined> {
    var keys := UniqueKeys(commands);
    var added := NewKeys(s, commands, keys);
    if Used(s) + |added| > MAX_COMPLETED then None else Some(JoinAll(WithSlots(s, added), keys, owner))
  }

  function ReleaseOne(s: Session, key: Key, owner: nat, retainPending: bool): Session {
    if key !in s.reservations then s
    else
      var slot := Slot(s.reservations[key].owners - {owner}, s.reservations[key].pending || retainPending);
      if !slot.pending && slot.owners == {} then s.(reservations := s.reservations - {key})
      else s.(reservations := s.reservations[key := slot])
  }

  function ReleaseAll(s: Session, keys: seq<Key>, owner: nat, retainPending: bool): Session {
    if keys == [] then s
    else ReleaseOne(ReleaseAll(s, keys[..|keys| - 1], owner, retainPending), keys[|keys| - 1], owner, retainPending)
  }

  function WithoutLease(s: Session, leaseUuid: string): Session {
    s.(reservations := map k | k in s.reservations && k.leaseUuid != leaseUuid :: s.reservations[k])
  }

  predicate CanRecord(s: Session, key: Key) {
    |s.results| < MAX_COMPLETED && (key in s.reservations || Used(s) < MAX_COMPLETED)
  }

  function Recorded(s: Session, command: Command, result: MaintenanceResult): Session {
    s.(results := s.results[command.key := Record(result, command.payloadHash)],
       reservations := s.reservations - {command.key})
  }

  // ------------------------------------------------------------- the table's operations

  datatype Op =
    | Capture(scope: string)
    | Reserve(commands: seq<Command>, epoch: Epoch)
    | Release(reservation: Reservation, retainPending: bool)
    | Settle(scope: string, key: Key)
    | CloseLease(scope: string, leaseUuid: string)
    | Remember(command: Command, result: MaintenanceResult, epoch: Epoch)
    | Clear(scope: string)

  predicate Current(t: Table, epoch: Epoch) {
    epoch.scope in t.sessions && t.sessions[epoch.scope].epoch == epoch
  }

  function Replaced(t: Table, scope: string, s: Session): Table {
    t.(sessions := t.sessions[scope := s])
  }

  function Captured(t: Table, scope: string): Table {
    if scope in t.sessions then t
    else Table(t.sessions[scope := Session(Epoch(scope, t.nextSymbol), map[], map[])], t.nextSymbol + 1)
  }

  function ReserveResult(t: Table, commands: seq<Command>, epoch: Epoch): Option<Joined> {
    if !Current(t, epoch) || exists i :: 0 <= i < |commands| && commands[i].scope != epoch.scope then None
    else Admit(t.sessions[epoch.scope], commands, t.nextSymbol)
  }

  /** Whether a result is accepted: a repeated one only with the same payload. */
  predicate RememberResult(t: Table, command: Command, epoch: Epoch) {
    && command.scope in t.sessions && t.sessions[command.scope].epoch == epoch
    && var s := t.sessions[command.scope];
       if command.key in s.results then s.results[command.key].payloadHash == command.payloadHash
       else CanRecord(s, command.key)
  }

  function Apply(t: Table, op: Op): Table {
    match op
    case Capture(scope) => Captured(t, scope)
    case Reserve(commands, epoch) =>
      (match ReserveResult(t, commands, epoch)
       case None => t
       case Some(joined) => Replaced(t, epoch.scope, joined.session).(nextSymbol := t.nextSymbol + 1))
    case Release(r, retainPending) =>
      if !Current(t, r.epoch) then t
      else Replaced(t, r.epoch.scope, ReleaseAll(t.sessions[r.epoch.scope], r.keys, r.owner, retainPending))
    case Settle(scope, key) =>
      if scope !in t.sessions then t
      else
        var s := t.sessions[scope];
        Replaced(t, scope, s.(reservations := s.reservations - {key}))
    case CloseLease(scope, leaseUuid) =>
      if scope !in t.sessions then t else Replaced(t, scope, WithoutLease(t.sessions[scope], leaseUuid))
    case Remember(command, result, epoch) =>
      if RememberResult(t, command, epoch) && command.key !in t.sessions[command.scope].results
      then Replaced(t, command.scope, Recorded(t.sessions[command.scope], command, result))
      else t
    case Clear(scope) => t.(sessions := t.sessions - {scope})
  }

  function Run(t: Table, ops: seq<Op>): Table {
    if ops == [] then t else Apply(Run(t, ops[..|ops| - 1]), ops[|ops| - 1])
  }

  // ------------------------------------------------------------- invariant

  ghost predicate GoodSession(s: Session, nextSymbol: nat) {
    && Used(s) <= MAX_COMPLETED
    && s.results.Keys !! s.reservations.Keys
    && s.epoch.generation < nextSymbol
    && (forall k :: k in s.reservations ==> s.reservations[k].owners != {} || s.reservations[k].pending)
    && (forall k, o :: k in s.reservations && o in s.reservations[k].owners ==> o < nextSymbol)
  }

  ghost predicate Valid(t: Table) {
    forall scope :: scope in t.sessions ==>
      t.sessions[scope].epoch.scope == scope && GoodSession(t.sessions[scope], t.nextSymbol)
  }

  lemma Fewer<K, V>(small: map<K, V>, large: map<K, V>)
    requires small.Keys <= large.Keys
    ensures |small| <= |large|
  {
    assert large.Keys == small.Keys + (large.Keys - small.Keys);
    assert |small| == |small.Keys| && |large| == |large.Keys|;
  }

  lemma OneFewer<K, V>(m: map<K, V>, k: K)
    requires k in m
    ensures |m - {k}| == |m| - 1
  {
    assert (m - {k}).Keys == m.Keys - {k};
    assert |m - {k}| == |(m - {k}).Keys| && |m| == |m.Keys|;
  }
}
