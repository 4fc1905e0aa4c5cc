/** What every sequence of operations on the confirmation table keeps. */
module MaintenanceSafety {
  import opened Options
  import opened MaintenanceCompletion

  ghost predicate Distinct(keys: seq<Key>) {
    forall i, j :: 0 <= i < j < |keys| ==> keys[i] != keys[j]
  }

  // ------------------------------------------------------------- admission of a batch

  /** What adding empty slots does: the listed keys get one, everything else stays. */
  ghost predicate SlotsFor(before: Session, after: Session, keys: seq<Key>) {
    && after.epoch == before.epoch && after.results == before.results
    && |after.reservations| == |before.reservations| + |keys|
    && (forall k :: k in after.reservations <==> k in before.reservations || k in keys)
    && (forall k :: k in before.reservations ==> after.reservations[k] == before.reservations[k])
    && (forall k :: k in keys ==> after.reservations[k] == Slot({}, false))
  }

  lemma {:induction false} SlotsAdded(s: Session, keys: seq<Key>)
    requires Distinct(keys) && forall k :: k in keys ==> k !in s.reservations
    ensures SlotsFor(s, WithSlots(s, keys), keys)
  {
    if keys != [] {
      var front, last := keys[..|keys| - 1], keys[|keys| - 1];
      SlotsAdded(s, front);
      assert keys == front + [last] && last !in front;
      SlotAdded(s, WithSlots(s, front), front, last);
    }
  }

  lemma OneMore(m: map<Key, Slot>, k: Key, slot: Slot)
    requires k !in m
    ensures |m[k := slot]| == |m| + 1
  {
    assert m[k := slot].Keys == m.Keys + {k};
    assert |m[k := slot]| == |m[k := slot].Keys| && |m| == |m.Keys|;
  }

  lemma SlotAdded(s: Session, mid: Session, front: seq<Key>, last: Key)
    requires SlotsFor(s, mid, front) && last !in front && last !in s.reservations
    ensures SlotsFor(s, mid.(reservations := mid.reservations[last := Slot({}, false)]), front + [last])
  {
    assert last !in mid.reservations;
    OneMore(mid.reservations, last, Slot({}, false));
  }

  /** What joining does to one key. */
  ghost predicate JoinedKey(before: Session, after: Session, key: Key, owner: nat, asked: bool) {
    if key in before.reservations then
      key in after.reservations &&
      after.reservations[key] ==
        if asked && key !in before.results
        then before.reservations[key].(owners := before.reservations[key].owners + {owner})
        else before.reservations[key]
    else
      key in after.reservations ==> asked && key !in before.results && after.reservations[key] == Slot({owner}, false)
  }

  ghost predicate JoinedBy(s: Session, j: Joined, keys: seq<Key>, owner: nat) {
    && j.session.epoch == s.epoch && j.session.results == s.results && Used(j.session) <= MAX_COMPLETED
    && (forall k :: JoinedKey(s, j.session, k, owner, k in keys))
    && (forall k :: k in j.keys <==> k in keys && k in j.session.reservations && k !in s.results)
  }

  lemma OneJoined(s: Session, before: Joined, keys: seq<Key>, last: Key, owner: nat)
    requires JoinedBy(s, before, keys, owner) && last !in keys
    ensures JoinedBy(s, JoinOne(before, last, owner), keys + [last], owner)
  {
    var after := JoinOne(before, last, owner);
    assert JoinedKey(s, before.session, last, owner, false);
    forall k ensures JoinedKey(s, after.session, k, owner, k in keys + [last]) {
      assert JoinedKey(s, before.session, k, owner, k in keys);
    }
    forall k ensures k in after.keys <==> k in keys + [last] && k in after.session.reservations && k !in s.results {
      assert k in before.keys <==> k in keys && k in before.session.reservations && k !in s.results;
    }
    if last in before.session.reservations {
      assert after.session.reservations.Keys == before.session.reservations.Keys || last in s.results;
    }
  }

  lemma {:induction false} AllJoined(s: Session, keys: seq<Key>, owner: nat)
    requires Distinct(keys) && Used(s) <= MAX_COMPLETED
    ensures JoinedBy(s, JoinAll(s, keys, owner), keys, owner)
  {
    hide JoinOne;
    if keys != [] {
      var front, last := keys[..|keys| - 1], keys[|keys| - 1];
      AllJoined(s, front, owner);
      assert keys == front + [last] && last !in front;
      OneJoined(s, JoinAll(s, front, owner), front, last, owner);
    }
  }

  /** What one admission does: new commands get a slot, held slots gain an owner, everything else stays. */
  ghost predicate AdmittedKey(before: Session, after: Session, commands: seq<Command>, key: Key, owner: nat) {
    var asked := key in UniqueKeys(commands) && key !in before.results;
    if key in before.reservations then
      key in after.reservations &&
      after.reservations[key] ==
        if asked then before.reservations[key].(owners := before.reservations[key].owners + {owner})
        else before.reservations[key]
    else
      && (key in after.reservations ==> asked && after.reservations[key] == Slot({owner}, false))
      && (asked && !Recovers(commands, key) ==> key in after.reservations)
  }

  lemma Admission(s: Session, commands: seq<Command>, owner: nat)
    requires Admit(s, commands, owner).Some?
    ensures var j := Admit(s, commands, owner).value;
            && j.session.epoch == s.epoch && j.session.results == s.results && Used(j.session) <= MAX_COMPLETED
            && (forall k :: AdmittedKey(s, j.session, commands, k, owner))
            && (forall k ::
                  k in j.keys <==> k in UniqueKeys(commands) && k in j.session.reservations && k !in s.results)
  {
    hide UniqueKeys, NewKeys, WithSlots, JoinAll, Recovers;
    var keys := UniqueKeys(commands);
    var added := NewKeys(s, commands, keys);
    SlotsAdded(s, added);
    var mid := WithSlots(s, added);
    AllJoined(mid, keys, owner);
    var j := JoinAll(mid, keys, owner);
    forall k ensures AdmittedKey(s, j.session, commands, k, owner) {
      assert JoinedKey(mid, j.session, k, owner, k in keys);
    }
  }

  /** A key is to be recovered exactly when the last command that mentions it says so. */
  lemma {:induction false} RecoversExact(commands: seq<Command>, key: Key)
    ensures Recovers(commands, key) <==>
              exists i :: 0 <= i < |commands| && commands[i].key == key && commands[i].recovery
                       && forall j :: i < j < |commands| ==> commands[j].key != key
  {
    if commands != [] && commands[|commands| - 1].key != key {
      var front := commands[..|commands| - 1];
      RecoversExact(front, key);
      assert forall i :: 0 <= i < |front| ==> front[i] == commands[i];
    }
  }

  /** The keys of a batch that need a slot of their own. */
  ghost predicate NeedsSlot(s: Session, commands: seq<Command>, key: Key) {
    && key !in s.results && key !in s.reservations && !Recovers(commands, key)
    && exists i :: 0 <= i < |commands| && commands[i].key == key
  }

  /** A batch is admitted exactly when the keys that need a slot fit beside the ones in use. */
  ghost predicate Fitting(s: Session, commands: seq<Command>, needing: set<Key>) {
    (forall k :: k in needing <==> NeedsSlot(s, commands, k)) && |s.results| + |s.reservations| + |needing| <= 128
  }

  lemma {:induction false} DistinctCount(keys: seq<Key>, elements: set<Key>)
    requires Distinct(keys) && forall k :: k in elements <==> k in keys
    ensures |elements| == |keys|
  {
    if keys == [] {
      assert elements == {};
    } else {
      var front, last := keys[..|keys| - 1], keys[|keys| - 1];
      assert keys == front + [last] && last in elements;
      DistinctCount(front, elements - {last});
    }
  }

  lemma AdmitExact(s: Session, commands: seq<Command>, owner: nat)
    ensures Admit(s, commands, owner).Some? <==> exists needing :: Fitting(s, commands, needing)
  {
    hide UniqueKeys, NewKeys, WithSlots, JoinAll, Recovers;
    var keys := UniqueKeys(commands);
    var added := NewKeys(s, commands, keys);
    var needing := set k | k in added;
    DistinctCount(added, needing);
    assert forall k :: k in needing <==> NeedsSlot(s, commands, k);
    if Admit(s, commands, owner).Some? {
      assert Fitting(s, commands, needing);
    }
    forall other | Fitting(s, commands, other) ensures other == needing {
      assert forall k :: k in other <==> k in needing;
    }
  }

  lemma AdmissionKeepsGood(s: Session, commands: seq<Command>, owner: nat)
    requires GoodSession(s, owner) && Admit(s, commands, owner).Some?
    ensures GoodSession(Admit(s, commands, owner).value.session, owner + 1)
  {
    hide UniqueKeys, Admit, Recovers, Used;
    Admission(s, commands, owner);
    var after := Admit(s, commands, owner).value.session;
    forall k | k in after.reservations
      ensures after.reservations[k].owners != {} || after.reservations[k].pending
      ensures k !in after.results
      ensures forall o :: o in after.reservations[k].owners ==> o < owner + 1
    {
      assert AdmittedKey(s, after, commands, k, owner);
    }
  }

  // ------------------------------------------------------------- release

  /** What a release does to one key. */
  ghost predicate ReleasedKey(before: Session, after: Session, key: Key, owner: nat, retain: bool, asked: bool) {
    if key !in before.reservations then key !in after.reservations
    else
      var slot := before.reservations[key];
      var left := if asked then Slot(slot.owners - {owner}, slot.pending || retain) else slot;
      if asked && !left.pending && left.owners == {} then key !in after.reservations
      else key in after.reservations && after.reservations[key] == left
  }

  lemma {:induction false} AllReleased(s: Session, keys: seq<Key>, owner: nat, retain: bool)
    ensures var t := ReleaseAll(s, keys, owner, retain);
            && t.epoch == s.epoch && t.results == s.results
            && forall k :: ReleasedKey(s, t, k, owner, retain, k in keys)
  {
    if keys != [] {
      var front, last := keys[..|keys| - 1], keys[|keys| - 1];
      AllReleased(s, front, owner, retain);
      assert keys == front + [last];
      var before, after := ReleaseAll(s, front, owner, retain), ReleaseAll(s, keys, owner, retain);
      forall k ensures ReleasedKey(s, after, k, owner, retain, k in keys) {
        assert ReleasedKey(s, before, k, owner, retain, k in front);
      }
    }
  }

  lemma ReleaseKeepsGood(s: Session, keys: seq<Key>, owner: nat, retain: bool, nextSymbol: nat)
    requires GoodSession(s, nextSymbol)
    ensures GoodSession(ReleaseAll(s, keys, owner, retain), nextSymbol)
  {
    hide ReleaseAll;
    AllReleased(s, keys, owner, retain);
    var t := ReleaseAll(s, keys, owner, retain);
    forall k | k in t.reservations
      ensures k in s.reservations && t.reservations[k].owners <= s.reservations[k].owners
      ensures t.reservations[k].owners != {} || t.reservations[k].pending
    {
      assert ReleasedKey(s, t, k, owner, retain, k in keys);
    }
    Fewer(t.reservations, s.reservations);
  }

  /** Releasing what was just reserved, with nothing dispatched, gives back exactly the session before. */
  lemma ReserveThenRelease(s: Session, commands: seq<Command>, owner: nat)
    requires GoodSession(s, owner) && Admit(s, commands, owner).Some?
    ensures var j := Admit(s, commands, owner).value; ReleaseAll(j.session, j.keys, owner, false) == s
  {
    hide UniqueKeys, Admit, Recovers, ReleaseAll;
    Admission(s, commands, owner);
    var j := Admit(s, commands, owner).value;
    AllReleased(j.session, j.keys, owner, false);
    var t := ReleaseAll(j.session, j.keys, owner, false);
    forall k ensures k in t.reservations <==> k in s.reservations
             ensures k in s.reservations ==> k in t.reservations && t.reservations[k] == s.reservations[k]
    {
      assert AdmittedKey(s, j.session, commands, k, owner);
      assert ReleasedKey(j.session, t, k, owner, false, k in j.keys);
      if k in s.reservations {
        assert owner !in s.reservations[k].owners;
        assert s.reservations[k].owners + {owner} - {owner} == s.reservations[k].owners;
      } else if k in j.session.reservations {
        assert {owner} - {owner} == {};
      }
    }
    assert t.reservations == s.reservations;
  }

  // ------------------------------------------------------------- every operation keeps the invariant

  lemma RecordKeepsGood(s: Session, command: Command, result: MaintenanceResult, nextSymbol: nat)
    requires GoodSession(s, nextSymbol) && CanRecord(s, command.key) && command.key !in s.results
    ensures GoodSession(Recorded(s, command, result), nextSymbol)
  {
    var t := Recorded(s, command, result);
    if command.key in s.reservations {
      OneFewer(s.reservations, command.key);
    } else {
      assert t.reservations == s.reservations;
    }
  }

  lemma NarrowKeepsGood(s: Session, t: Session, nextSymbol: nat)
    requires GoodSession(s, nextSymbol) && t.epoch == s.epoch && t.results == s.results
    requires t.reservations.Keys <= s.reservations.Keys
    requires forall k :: k in t.reservations ==> t.reservations[k] == s.reservations[k]
    ensures GoodSession(t, nextSymbol)
  {
    Fewer(t.reservations, s.reservations);
  }

  lemma EmptyIsGood(epoch: Epoch, nextSymbol: nat)
    requires epoch.generation < nextSymbol
    ensures GoodSession(Session(epoch, map[], map[]), nextSymbol)
  {
  }

  lemma LaterSymbol(s: Session, nextSymbol: nat)
    requires GoodSession(s, nextSymbol)
    ensures GoodSession(s, nextSymbol + 1)
  {
  }

  lemma ReplacedKeepsValid(t: Table, scope: string, s: Session, nextSymbol: nat)
    requires Valid(t) && t.nextSymbol <= nextSymbol <= t.nextSymbol + 1
    requires s.epoch.scope == scope && GoodSession(s, nextSymbol)
    ensures Valid(Table(t.sessions[scope := s], nextSymbol))
  {
    hide GoodSession;
    var now := Table(t.sessions[scope := s], nextSymbol);
    forall other | other in now.sessions
      ensures now.sessions[other].epoch.scope == other && GoodSession(now.sessions[other], nextSymbol)
    {
      if other != scope && nextSymbol == t.nextSymbol + 1 {
        LaterSymbol(t.sessions[other], t.nextSymbol);
      }
    }
  }

  lemma ApplyKeepsValid(t: Table, op: Op)
    requires Valid(t)
    ensures Valid(Apply(t, op)) && Apply(t, op).nextSymbol >= t.nextSymbol
  {
    hide Admit, ReleaseAll, UniqueKeys, GoodSession, Valid, CanRecord;
    ValidSession(t);
    match op {
      case Capture(scope) =>
        if scope !in t.sessions {
          EmptyIsGood(Epoch(scope, t.nextSymbol), t.nextSymbol + 1);
          ReplacedKeepsValid(t, scope, Session(Epoch(scope, t.nextSymbol), map[], map[]), t.nextSymbol + 1);
        }
      case Reserve(commands, epoch) =>
        if ReserveResult(t, commands, epoch).Some? {
          AdmissionKeepsGood(t.sessions[epoch.scope], commands, t.nextSymbol);
          Admission(t.sessions[epoch.scope], commands, t.nextSymbol);
          var s := Admit(t.sessions[epoch.scope], commands, t.nextSymbol).value.session;
          ReplacedKeepsValid(t, epoch.scope, s, t.nextSymbol + 1);
        }
      case Release(r, retain) =>
        if Current(t, r.epoch) {
          ReleaseKeepsGood(t.sessions[r.epoch.scope], r.keys, r.owner, retain, t.nextSymbol);
          AllReleased(t.sessions[r.epoch.scope], r.keys, r.owner, retain);
          var s := ReleaseAll(t.sessions[r.epoch.scope], r.keys, r.owner, retain);
          ReplacedKeepsValid(t, r.epoch.scope, s, t.nextSymbol);
        }
      case Settle(scope, key) =>
        if scope in t.sessions {
          NarrowKeepsGood(t.sessions[scope], Apply(t, op).sessions[scope], t.nextSymbol);
          ReplacedKeepsValid(t, scope, Apply(t, op).sessions[scope], t.nextSymbol);
        }
      case CloseLease(scope, leaseUuid) =>
        if scope in t.sessions {
          NarrowKeepsGood(t.sessions[scope], Apply(t, op).sessions[scope], t.nextSymbol);
          ReplacedKeepsValid(t, scope, Apply(t, op).sessions[scope], t.nextSymbol);
        }
      case Remember(command, result, epoch) =>
        if RememberResult(t, command, epoch) && command.key !in t.sessions[command.scope].results {
          RecordKeepsGood(t.sessions[command.scope], command, result, t.nextSymbol);
          var s := Recorded(t.sessions[command.scope], command, result);
          ReplacedKeepsValid(t, command.scope, s, t.nextSymbol);
        }
      case Clear(scope) =>
        ClearKeepsValid(t, scope);
    }
  }

  lemma ValidSession(t: Table)
    requires Valid(t)
    ensures forall scope :: scope in t.sessions ==>
      t.sessions[scope].epoch.scope == scope && GoodSession(t.sessions[scope], t.nextSymbol)
  {
  }

  lemma ClearKeepsValid(t: Table, scope: string)
    requires Valid(t)
    ensures Valid(t.(sessions := t.sessions - {scope}))
  {
  }

  /** In every reachable table: at most 128 keys a session, results and slots apart, every slot owned or pending. */
  lemma {:induction false} RunKeepsValid(t: Table, ops: seq<Op>)
    requires Valid(t)
    ensures Valid(Run(t, ops)) && Run(t, ops).nextSymbol >= t.nextSymbol
  {
    hide Apply;
    if ops != [] {
      RunKeepsValid(t, ops[..|ops| - 1]);
      ApplyKeepsValid(Run(t, ops[..|ops| - 1]), ops[|ops| - 1]);
    }
  }

  // ------------------------------------------------------------- sessions and results over time

  /** A session that is current after an operation was current before it, unless it is brand new. */
  lemma CurrentBefore(t: Table, op: Op, epoch: Epoch)
    requires Valid(t) && epoch.generation < t.nextSymbol && Current(Apply(t, op), epoch)
    ensures Current(t, epoch)
  {
    hide Admit, ReleaseAll;
    match op {
      case Reserve(commands, e) =>
        if ReserveResult(t, commands, e).Some? {
          Admission(t.sessions[e.scope], commands, t.nextSymbol);
        }
      case Release(r, retain) =>
        if Current(t, r.epoch) {
          AllReleased(t.sessions[r.epoch.scope], r.keys, r.owner, retain);
        }
      case _ =>
    }
  }

  /** With this token nothing can be reserved, released or recorded. */
  ghost predicate Inert(t: Table, epoch: Epoch) {
    && (forall commands :: ReserveResult(t, commands, epoch) == None && Apply(t, Reserve(commands, epoch)) == t)
    && (forall r: Reservation, retain :: r.epoch == epoch ==> Apply(t, Release(r, retain)) == t)
    && (forall command, result :: Apply(t, Remember(command, result, epoch)) == t)
    && (forall command :: !RememberResult(t, command, epoch))
  }

  lemma ClosedIsInert(t: Table, epoch: Epoch)
    requires Valid(t) && !Current(t, epoch)
    ensures Inert(t, epoch)
  {
    hide Admit, ReleaseAll;
    forall command ensures !RememberResult(t, command, epoch) {
      assert command.scope in t.sessions ==> t.sessions[command.scope].epoch.scope == command.scope;
    }
  }

  /** A closed session stays closed: its tokens reserve, release and record nothing, after any run. */
  lemma {:induction false} ClosedStaysClosed(t: Table, ops: seq<Op>, epoch: Epoch)
    requires Valid(t) && epoch.generation < t.nextSymbol && !Current(t, epoch)
    ensures !Current(Run(t, ops), epoch) && Inert(Run(t, ops), epoch)
  {
    hide Apply, Inert;
    if ops != [] {
      var front := ops[..|ops| - 1];
      ClosedStaysClosed(t, front, epoch);
      RunKeepsValid(t, front);
      if Current(Run(t, ops), epoch) {
        CurrentBefore(Run(t, front), ops[|ops| - 1], epoch);
      }
    }
    RunKeepsValid(t, ops);
    ClosedIsInert(Run(t, ops), epoch);
  }

  /** One operation neither replaces nor evicts a recorded result of a session that goes on. */
  lemma ResultStays(t: Table, op: Op, epoch: Epoch, key: Key)
    requires Valid(t) && Current(t, epoch) && key in t.sessions[epoch.scope].results
    requires Current(Apply(t, op), epoch)
    ensures var now := Apply(t, op).sessions[epoch.scope].results;
            key in now && now[key] == t.sessions[epoch.scope].results[key]
  {
    hide Admit, ReleaseAll;
    match op {
      case Reserve(commands, e) =>
        if ReserveResult(t, commands, e).Some? {
          Admission(t.sessions[e.scope], commands, t.nextSymbol);
        }
      case Release(r, retain) =>
        if Current(t, r.epoch) {
          AllReleased(t.sessions[r.epoch.scope], r.keys, r.owner, retain);
        }
      case _ =>
    }
  }

  /** Over any run within one session, a recorded result is never replaced or evicted. */
  lemma {:induction false} ResultsStay(t: Table, ops: seq<Op>, epoch: Epoch, key: Key)
    requires Valid(t) && Current(t, epoch) && key in t.sessions[epoch.scope].results
    requires Current(Run(t, ops), epoch)
    ensures var now := Run(t, ops).sessions[epoch.scope].results;
            key in now && now[key] == t.sessions[epoch.scope].results[key]
  {
    hide Apply;
    if ops != [] {
      var front := ops[..|ops| - 1];
      RunKeepsValid(t, front);
      CurrentBefore(Run(t, front), ops[|ops| - 1], epoch);
      ResultsStay(t, front, epoch, key);
      ResultStays(Run(t, front), ops[|ops| - 1], epoch, key);
    }
  }

  // ------------------------------------------------------------- a held slot is never lost

  /** A claim on a slot: by an owner, or (with no owner) by dispatched work that is still pending. */
  ghost predicate Claims(slot: Slot, claim: Option<nat>) {
    match claim
    case Some(owner) => owner in slot.owners
    case None => slot.pending
  }

  ghost predicate Held(t: Table, epoch: Epoch, key: Key, claim: Option<nat>) {
    && Current(t, epoch)
    && var s := t.sessions[epoch.scope];
       key in s.results || (key in s.reservations && Claims(s.reservations[key], claim))
  }

  /** The operations by which a claim may be given up. Other owners and other commands are not among them. */
  predicate GivesUp(op: Op, epoch: Epoch, key: Key, claim: Option<nat>) {
    match op
    case Release(r, _) => claim == Some(r.owner)
    case Settle(scope, k) => scope == epoch.scope && k == key
    case CloseLease(scope, leaseUuid) => scope == epoch.scope && leaseUuid == key.leaseUuid
    case Clear(scope) => scope == epoch.scope
    case _ => false
  }

  lemma AdmissionKeepsClaim(s: Session, commands: seq<Command>, owner: nat, key: Key, claim: Option<nat>)
    requires Admit(s, commands, owner).Some? && key in s.reservations && Claims(s.reservations[key], claim)
    ensures var after := Admit(s, commands, owner).value.session;
            key in after.reservations && Claims(after.reservations[key], claim)
  {
    hide Admit, UniqueKeys, Recovers;
    Admission(s, commands, owner);
    assert AdmittedKey(s, Admit(s, commands, owner).value.session, commands, key, owner);
  }

  lemma ReleaseKeepsClaim(s: Session, keys: seq<Key>, owner: nat, retain: bool, key: Key, claim: Option<nat>)
    requires claim != Some(owner) && key in s.reservations && Claims(s.reservations[key], claim)
    ensures var after := ReleaseAll(s, keys, owner, retain);
            key in after.reservations && Claims(after.reservations[key], claim)
  {
    hide ReleaseAll;
    AllReleased(s, keys, owner, retain);
    assert ReleasedKey(s, ReleaseAll(s, keys, owner, retain), key, owner, retain, key in keys);
    var slot := s.reservations[key];
    match claim {
      case None =>
      case Some(other) => assert other in slot.owners - {owner};
    }
  }

  lemma HeldOverReserve(t: Table, commands: seq<Command>, e: Epoch, epoch: Epoch, key: Key, claim: Option<nat>)
    requires Valid(t) && Held(t, epoch, key, claim)
    ensures Held(Apply(t, Reserve(commands, e)), epoch, key, claim)
  {
    hide Admit, GoodSession;
    var s := t.sessions[epoch.scope];
    if ReserveResult(t, commands, e).Some? && e == epoch {
      Admission(s, commands, t.nextSymbol);
      if key !in s.results {
        AdmissionKeepsClaim(s, commands, t.nextSymbol, key, claim);
      }
    }
  }

  lemma HeldOverRelease(t: Table, r: Reservation, retain: bool, epoch: Epoch, key: Key, claim: Option<nat>)
    requires Valid(t) && Held(t, epoch, key, claim) && !GivesUp(Release(r, retain), epoch, key, claim)
    ensures Held(Apply(t, Release(r, retain)), epoch, key, claim)
  {
    hide ReleaseAll, GoodSession;
    var s := t.sessions[epoch.scope];
    if r.epoch == epoch {
      AllReleased(s, r.keys, r.owner, retain);
      if key !in s.results {
        ReleaseKeepsClaim(s, r.keys, r.owner, retain, key, claim);
      }
    }
  }

  lemma HeldOverRecord(t: Table, command: Command, result: MaintenanceResult, e: Epoch, epoch: Epoch, key: Key,
                       claim: Option<nat>)
    requires Valid(t) && Held(t, epoch, key, claim)
    ensures Held(Apply(t, Remember(command, result, e)), epoch, key, claim)
  {
    hide CanRecord, GoodSession, Admit, ReleaseAll;
  }

  lemma HeldOverOthers(t: Table, op: Op, epoch: Epoch, key: Key, claim: Option<nat>)
    requires Held(t, epoch, key, claim) && !GivesUp(op, epoch, key, claim)
    requires op.Capture? || op.Settle? || op.CloseLease? || op.Clear?
    ensures Held(Apply(t, op), epoch, key, claim)
  {
    hide ReserveResult, ReleaseAll, RememberResult, Recorded;
  }

  lemma StaysHeld(t: Table, op: Op, epoch: Epoch, key: Key, claim: Option<nat>)
    requires Valid(t) && Held(t, epoch, key, claim) && !GivesUp(op, epoch, key, claim)
    ensures Held(Apply(t, op), epoch, key, claim)
  {
    hide Apply, Held, Valid, GivesUp;
    match op {
      case Reserve(commands, e) => HeldOverReserve(t, commands, e, epoch, key, claim);
      case Release(r, retain) => HeldOverRelease(t, r, retain, epoch, key, claim);
      case Remember(command, result, e) => HeldOverRecord(t, command, result, e, epoch, key, claim);
      case _ => HeldOverOthers(t, op, epoch, key, claim);
    }
  }

  /**
   * Whatever else happens, a command that holds a slot can record its result: the write is accepted,
   * or a result is already on record.
   */
  lemma {:induction false} HolderCanRecord(t: Table, ops: seq<Op>, epoch: Epoch, command: Command, claim: Option<nat>)
    requires Valid(t) && Held(t, epoch, command.key, claim) && command.scope == epoch.scope
    requires forall i :: 0 <= i < |ops| ==> !GivesUp(ops[i], epoch, command.key, claim)
    ensures Held(Run(t, ops), epoch, command.key, claim)
    ensures var now := Run(t, ops);
            var s := now.sessions[epoch.scope];
            if command.key in s.results
            then RememberResult(now, command, epoch) <==> s.results[command.key].payloadHash == command.payloadHash
            else RememberResult(now, command, epoch)
  {
    hide Apply;
    if ops != [] {
      var front := ops[..|ops| - 1];
      HolderCanRecord(t, front, epoch, command, claim);
      RunKeepsValid(t, front);
      StaysHeld(Run(t, front), ops[|ops| - 1], epoch, command.key, claim);
    }
    RunKeepsValid(t, ops);
    var s := Run(t, ops).sessions[epoch.scope];
    if command.key !in s.results {
      assert |s.reservations| > 0 by {
        OneFewer(s.reservations, command.key);
      }
    }
  }

  // ------------------------------------------------------------- from the owner to the dispatched work

  /** A slot held by its owner or, after dispatch, by the work that is pending. */
  ghost predicate HeldOn(t: Table, epoch: Epoch, key: Key, owner: nat) {
    Held(t, epoch, key, Some(owner)) || Held(t, epoch, key, None)
  }

  /** What ends that: giving the slot up without dispatch, a result from elsewhere, a closed lease or session. */
  predicate Withdraws(op: Op, epoch: Epoch, key: Key, owner: nat) {
    match op
    case Release(r, retain) => r.owner == owner && !retain
    case _ => GivesUp(op, epoch, key, None)
  }

  /** Releasing after dispatch hands the slot over from its owner to the pending work. */
  lemma DispatchHandsOver(t: Table, r: Reservation, epoch: Epoch, key: Key)
    requires Valid(t) && Held(t, epoch, key, Some(r.owner))
    ensures HeldOn(Apply(t, Release(r, true)), epoch, key, r.owner)
    ensures r.epoch == epoch && key in r.keys ==> Held(Apply(t, Release(r, true)), epoch, key, None)
  {
    hide ReleaseAll;
    var s := t.sessions[epoch.scope];
    if r.epoch == epoch {
      AllReleased(s, r.keys, r.owner, true);
      if key !in s.results {
        assert ReleasedKey(s, ReleaseAll(s, r.keys, r.owner, true), key, r.owner, true, key in r.keys);
      }
    }
  }

  lemma StaysHeldOn(t: Table, op: Op, epoch: Epoch, key: Key, owner: nat)
    requires Valid(t) && HeldOn(t, epoch, key, owner) && !Withdraws(op, epoch, key, owner)
    ensures HeldOn(Apply(t, op), epoch, key, owner)
  {
    hide Apply, Held;
    if Held(t, epoch, key, None) {
      StaysHeld(t, op, epoch, key, None);
    } else if op.Release? && op.reservation.owner == owner {
      DispatchHandsOver(t, op.reservation, epoch, key);
    } else {
      StaysHeld(t, op, epoch, key, Some(owner));
    }
  }

  /**
   * From admission over dispatch to its result, whatever else happens, a command whose slot is not withdrawn can record
   * its result: the write is accepted, or a result is already on record.
   */
  lemma {:induction false} DispatchedCanRecord(t: Table, ops: seq<Op>, epoch: Epoch, command: Command, owner: nat)
    requires Valid(t) && HeldOn(t, epoch, command.key, owner) && command.scope == epoch.scope
    requires forall i :: 0 <= i < |ops| ==> !Withdraws(ops[i], epoch, command.key, owner)
    ensures HeldOn(Run(t, ops), epoch, command.key, owner)
    ensures var now := Run(t, ops);
            var s := now.sessions[epoch.scope];
            if command.key in s.results
            then RememberResult(now, command, epoch) <==> s.results[command.key].payloadHash == command.payloadHash
            else RememberResult(now, command, epoch)
  {
    hide Apply, Valid, RememberResult;
    if ops != [] {
      var front := ops[..|ops| - 1];
      DispatchedCanRecord(t, front, epoch, command, owner);
      RunKeepsValid(t, front);
      StaysHeldOn(Run(t, front), ops[|ops| - 1], epoch, command.key, owner);
    }
    RunKeepsValid(t, ops);
    var now := Run(t, ops);
    HolderCanRecord(now, [], epoch, command, if Held(now, epoch, command.key, None) then None else Some(owner));
  }

  /** Every new command of an admitted batch holds its slot from then on. */
  lemma AdmittedHold(t: Table, commands: seq<Command>, epoch: Epoch, key: Key)
    requires Valid(t) && ReserveResult(t, commands, epoch).Some?
    requires key in UniqueKeys(commands) && !Recovers(commands, key)
    ensures Held(Apply(t, Reserve(commands, epoch)), epoch, key, Some(t.nextSymbol))
  {
    hide Admit, UniqueKeys, Recovers;
    var s := t.sessions[epoch.scope];
    Admission(s, commands, t.nextSymbol);
    assert AdmittedKey(s, Admit(s, commands, t.nextSymbol).value.session, commands, key, t.nextSymbol);
  }
}
