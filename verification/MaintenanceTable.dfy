/** The confirmation table as an object: its sessions are changed in place by the operations. */
module MaintenanceTable {
  import opened Options
  import opened MaintenanceCompletion
  import opened MaintenanceSafety

  /** Reserves new work first, then joins every key of the batch; nothing is kept of a refused batch. */
  method AdmitBatch(s: Session, commands: seq<Command>, owner: nat) returns (r: Option<Joined>)
    ensures r == Admit(s, commands, owner)
  {
    hide UniqueKeys, NewKeys;
    var unique := UniqueKeys(commands);
    var newKeys := NewKeys(s, commands, unique);
    if |s.results| + |s.reservations| + |newKeys| > MAX_COMPLETED {
      return None;
    }
    var session := s;
    for i := 0 to |newKeys|
      invariant session == WithSlots(s, newKeys[..i])
    {
      assert newKeys[..i + 1][..i] == newKeys[..i];
      session := session.(reservations := session.reservations[newKeys[i] := Slot({}, false)]);
    }
    assert newKeys[..|newKeys|] == newKeys;
    var joined := JoinBatch(session, unique, owner);
    return Some(joined);
  }

  method JoinBatch(s: Session, unique: seq<Key>, owner: nat) returns (joined: Joined)
    ensures joined == JoinAll(s, unique, owner)
  {
    var session, keys := s, [];
    for i := 0 to |unique|
      invariant Joined(session, keys) == JoinAll(s, unique[..i], owner)
    {
      var key := unique[i];
      assert unique[..i + 1][..i] == unique[..i];
      if key in session.results {
        continue;
      }
      if key in session.reservations {
        var slot := session.reservations[key];
        session := session.(reservations := session.reservations[key := slot.(owners := slot.owners + {owner})]);
        keys := keys + [key];
      } else if |session.results| + |session.reservations| < MAX_COMPLETED {
        session := session.(reservations := session.reservations[key := Slot({owner}, false)]);
        keys := keys + [key];
      }
    }
    assert unique[..|unique|] == unique;
    return Joined(session, keys);
  }

  /** Visits the reserved keys in any order and deletes those of the closed lease. */
  method DropLease(s: Session, leaseUuid: string) returns (r: Session)
    ensures r == WithoutLease(s, leaseUuid)
  {
    var left, kept := s.reservations.Keys, s.reservations;
    while left != {}
      invariant left <= s.reservations.Keys
      invariant forall k :: k in kept <==> k in s.reservations && (k in left || k.leaseUuid != leaseUuid)
      invariant forall k :: k in kept ==> kept[k] == s.reservations[k]
      decreases |left|
    {
      var key :| key in left;
      left := left - {key};
      if key.leaseUuid == leaseUuid {
        kept := kept - {key};
      }
    }
    r := s.(reservations := kept);
    assert kept == WithoutLease(s, leaseUuid).reservations;
  }

  /** The sessions of all other wallets are left alone. */
  ghost predicate OnlyIn(scope: string, before: map<string, Session>, after: map<string, Session>) {
    forall other :: other != scope ==>
      (other in after <==> other in before) && (other in before && other in after ==> after[other] == before[other])
  }

  /** A key's slot is what it was. */
  ghost predicate SameSlot(was: Session, now: Session, k: Key) {
    && (k in now.reservations <==> k in was.reservations)
    && (k in was.reservations && k in now.reservations ==> now.reservations[k] == was.reservations[k])
  }

  /** The result given is on record with the payload it belongs to, in place of the slot; everything else stays. */
  ghost predicate Recording(was: Session, now: Session, command: Command, result: MaintenanceResult) {
    && now.epoch == was.epoch && command.key !in now.reservations
    && command.key in now.results && now.results[command.key].result == result
    && now.results[command.key].payloadHash == command.payloadHash
    && forall k :: k != command.key ==>
         && SameSlot(was, now, k) && (k in now.results <==> k in was.results)
         && (k in was.results && k in now.results ==> now.results[k] == was.results[k])
  }

  lemma RecordingIs(was: Session, command: Command, result: MaintenanceResult)
    ensures Recording(was, Recorded(was, command, result), command, result)
  {
  }

  /**
   * The reservation owns a slot for each of its keys, and those are all the commands without a result, apart from
   * recoveries that found neither a slot nor room for one.
   */
  ghost predicate Booked(was: Session, now: Session, commands: seq<Command>, r: Reservation) {
    && now.epoch == was.epoch && now.results == was.results && |now.results| + |now.reservations| <= 128
    && (forall k :: AdmittedKey(was, now, commands, k, r.owner))
    && (forall k :: k in r.keys ==>
          k in now.reservations && r.owner in now.reservations[k].owners && k !in was.results)
    && (forall c :: c in commands && c.key !in was.results && c.key !in r.keys ==>
          Recovers(commands, c.key) && c.key !in was.reservations)
  }

  lemma ReservationBooks(s: Session, commands: seq<Command>, epoch: Epoch, owner: nat)
    ensures Admit(s, commands, owner).Some? <==> exists needing :: Fitting(s, commands, needing)
    ensures Admit(s, commands, owner).Some? ==>
              var j := Admit(s, commands, owner).value;
              Booked(s, j.session, commands, Reservation(epoch, owner, j.keys))
  {
    hide Admit, Recovers, UniqueKeys, Fitting;
    AdmitExact(s, commands, owner);
    if Admit(s, commands, owner).Some? {
      Admission(s, commands, owner);
      var j := Admit(s, commands, owner).value;
      forall k | k in j.keys ensures k in j.session.reservations && owner in j.session.reservations[k].owners {
        assert AdmittedKey(s, j.session, commands, k, owner);
      }
      forall c | c in commands && c.key !in s.results && c.key !in j.keys
        ensures Recovers(commands, c.key) && c.key !in s.reservations
      {
        var i :| 0 <= i < |commands| && commands[i] == c;
        assert commands[i].key == c.key && c.key in UniqueKeys(commands);
        assert AdmittedKey(s, j.session, commands, c.key, owner);
      }
    }
  }

  class CompletionTable {
    var sessions: map<string, Session>
    var nextSymbol: nat

    ghost function State(): Table
      reads this
    {
      Table(sessions, nextSymbol)
    }

    constructor ()
      ensures State() == Table(map[], 0) && Valid(State())
    {
      sessions, nextSymbol := map[], 0;
    }

    method CaptureEpoch(scope: string) returns (epoch: Epoch)
      requires Valid(State())
      modifies this
      ensures State() == Apply(old(State()), Capture(scope)) && Valid(State())
      ensures scope in sessions && sessions[scope].epoch == epoch && epoch.scope == scope
      ensures scope in old(sessions) ==> sessions == old(sessions)
      ensures scope !in old(sessions) ==>
                && sessions == old(sessions)[scope := Session(epoch, map[], map[])]
                && forall other :: other in old(sessions) ==> old(sessions)[other].epoch.generation < epoch.generation
    {
      ApplyKeepsValid(State(), Capture(scope));
      if scope !in sessions {
        sessions := sessions[scope := Session(Epoch(scope, nextSymbol), map[], map[])];
        nextSymbol := nextSymbol + 1;
      }
      epoch := sessions[scope].epoch;
    }

    method ReserveCompletions(commands: seq<Command>, epoch: Epoch) returns (reservation: Option<Reservation>)
      requires Valid(State())
      modifies this
      ensures State() == Apply(old(State()), Reserve(commands, epoch)) && Valid(State())
      ensures reservation ==
              match ReserveResult(old(State()), commands, epoch)
              case None => None
              case Some(joined) => Some(Reservation(epoch, old(nextSymbol), joined.keys))
      ensures reservation.None? ==> sessions == old(sessions)
      ensures reservation.Some? <==>
                && epoch.scope in old(sessions) && old(sessions)[epoch.scope].epoch == epoch
                && (forall c :: c in commands ==> c.scope == epoch.scope)
                && exists needing :: Fitting(old(sessions)[epoch.scope], commands, needing)
      ensures reservation.Some? ==>
                && OnlyIn(epoch.scope, old(sessions), sessions) && epoch.scope in sessions
                && reservation.value.epoch == epoch
                && Booked(old(sessions)[epoch.scope], sessions[epoch.scope], commands, reservation.value)
    {
      hide Admit, Valid, Recovers, UniqueKeys, Fitting, NeedsSlot, Booked;
      ApplyKeepsValid(State(), Reserve(commands, epoch));
      if epoch.scope !in sessions || sessions[epoch.scope].epoch != epoch
         || exists i :: 0 <= i < |commands| && commands[i].scope != epoch.scope {
        return None;
      }
      ReservationBooks(sessions[epoch.scope], commands, epoch, nextSymbol);
      var admitted := AdmitBatch(sessions[epoch.scope], commands, nextSymbol);
      if admitted.None? {
        return None;
      }
      reservation := Some(Reservation(epoch, nextSymbol, admitted.value.keys));
      sessions := sessions[epoch.scope := admitted.value.session];
      nextSymbol := nextSymbol + 1;
    }

    method ReleaseReservation(reservation: Reservation, retainPending: bool)
      requires Valid(State())
      modifies this
      ensures State() == Apply(old(State()), Release(reservation, retainPending)) && Valid(State())
      ensures var scope := reservation.epoch.scope;
              if scope in old(sessions) && old(sessions)[scope].epoch == reservation.epoch then
                && OnlyIn(scope, old(sessions), sessions) && scope in sessions
                && sessions[scope].epoch == reservation.epoch && sessions[scope].results == old(sessions)[scope].results
                && forall k :: ReleasedKey(old(sessions)[scope], sessions[scope], k, reservation.owner, retainPending,
                                           k in reservation.keys)
              else sessions == old(sessions)
    {
      ApplyKeepsValid(State(), Release(reservation, retainPending));
      var scope := reservation.epoch.scope;
      if scope !in sessions || sessions[scope].epoch != reservation.epoch {
        return;
      }
      var session := sessions[scope];
      AllReleased(session, reservation.keys, reservation.owner, retainPending);
      ghost var before := session;
      for i := 0 to |reservation.keys|
        invariant session == ReleaseAll(before, reservation.keys[..i], reservation.owner, retainPending)
      {
        var key := reservation.keys[i];
        assert reservation.keys[..i + 1][..i] == reservation.keys[..i];
        if key !in session.reservations {
          continue;
        }
        var slot := session.reservations[key];
        slot := Slot(slot.owners - {reservation.owner}, slot.pending || retainPending);
        if !slot.pending && slot.owners == {} {
          session := session.(reservations := session.reservations - {key});
        } else {
          session := session.(reservations := session.reservations[key := slot]);
        }
      }
      assert reservation.keys[..|reservation.keys|] == reservation.keys;
      sessions := sessions[scope := session];
    }

    method ReleaseSettled(command: Command)
      requires Valid(State())
      modifies this
      ensures State() == Apply(old(State()), Settle(command.scope, command.key)) && Valid(State())
      ensures OnlyIn(command.scope, old(sessions), sessions)
      ensures command.scope in old(sessions) ==>
                && command.scope in sessions
                && var (was, now) := (old(sessions)[command.scope], sessions[command.scope]);
                   now == was.(reservations := now.reservations) && command.key !in now.reservations
                   && forall k :: k != command.key ==> SameSlot(was, now, k)
    {
      ApplyKeepsValid(State(), Settle(command.scope, command.key));
      if command.scope in sessions {
        var session := sessions[command.scope];
        sessions := sessions[command.scope := session.(reservations := session.reservations - {command.key})];
      }
    }

    method ReleaseAbsent(scope: string, leaseUuid: string)
      requires Valid(State())
      modifies this
      ensures State() == Apply(old(State()), CloseLease(scope, leaseUuid)) && Valid(State())
      ensures OnlyIn(scope, old(sessions), sessions)
      ensures scope in old(sessions) ==>
                && scope in sessions
                && var (was, now) := (old(sessions)[scope], sessions[scope]);
                   now == was.(reservations := now.reservations)
                   && (forall k :: k in now.reservations ==> k.leaseUuid != leaseUuid)
                   && forall k: Key :: k.leaseUuid != leaseUuid ==> SameSlot(was, now, k)
    {
      ApplyKeepsValid(State(), CloseLease(scope, leaseUuid));
      if scope !in sessions {
        return;
      }
      var session := DropLease(sessions[scope], leaseUuid);
      sessions := sessions[scope := session];
    }

    method RememberCompletion(command: Command, result: MaintenanceResult, epoch: Epoch) returns (recorded: bool)
      requires Valid(State())
      modifies this
      ensures State() == Apply(old(State()), Remember(command, result, epoch)) && Valid(State())
      ensures recorded == RememberResult(old(State()), command, epoch)
      ensures recorded <==>
                && command.scope in old(sessions) && old(sessions)[command.scope].epoch == epoch
                && var was := old(sessions)[command.scope];
                   if command.key in was.results then was.results[command.key].payloadHash == command.payloadHash
                   else |was.results| < 128
                        && (command.key in was.reservations || |was.results| + |was.reservations| < 128)
      ensures if recorded && command.key !in old(sessions)[command.scope].results
              then
                && OnlyIn(command.scope, old(sessions), sessions) && command.scope in sessions
                && Recording(old(sessions)[command.scope], sessions[command.scope], command, result)
              else sessions == old(sessions)
    {
      ApplyKeepsValid(State(), Remember(command, result, epoch));
      hide Valid, Recording;
      if command.scope !in sessions || sessions[command.scope].epoch != epoch {
        return false;
      }
      var session := sessions[command.scope];
      if command.key in session.results {
        return session.results[command.key].payloadHash == command.payloadHash;
      }
      if |session.results| >= MAX_COMPLETED
         || (command.key !in session.reservations && |session.results| + |session.reservations| >= MAX_COMPLETED) {
        return false;
      }
      RecordingIs(session, command, result);
      session := session.(results := session.results[command.key := Record(result, command.payloadHash)],
                          reservations := session.reservations - {command.key});
      sessions := sessions[command.scope := session];
      return true;
    }

    method ClearCompleted(scope: string)
      requires Valid(State())
      modifies this
      ensures State() == Apply(old(State()), Clear(scope)) && Valid(State())
      ensures scope !in sessions && OnlyIn(scope, old(sessions), sessions)
    {
      ApplyKeepsValid(State(), Clear(scope));
      sessions := sessions - {scope};
    }
  }
}
