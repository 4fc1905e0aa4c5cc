/** The promise-chain lock around wallet signatures: every call waits for the promise of the call before it. */
module SigningMutex {

  datatype Phase = Waiting | Signing | Settled(ok: bool)

  /** A call waits for promise `prev` and resolves promise `own` when it is through. */
  datatype Call = Call(prev: nat, own: nat, phase: Phase)

  datatype Event = Began(call: nat) | Ended(call: nat, ok: bool)

  /** `resolved[p]` tells whether promise `p` is resolved; `signLock` is the promise the next call will wait for. */
  datatype Lock = Lock(resolved: seq<bool>, signLock: nat, calls: seq<Call>, log: seq<Event>)

  const UNLOCKED := Lock([true], 0, [], [])

  datatype Step = Request | Enter(call: nat) | Leave(call: nat, ok: bool)

  predicate WellFormed(l: Lock) {
    && l.signLock < |l.resolved|
    && forall k :: 0 <= k < |l.calls| ==> l.calls[k].prev < |l.resolved| && l.calls[k].own < |l.resolved|
  }

  predicate Enabled(l: Lock, step: Step)
    requires WellFormed(l)
  {
    match step
    case Request => true
    case Enter(k) => k < |l.calls| && l.calls[k].phase == Waiting && l.resolved[l.calls[k].prev]
    case Leave(k, _) => k < |l.calls| && l.calls[k].phase == Signing
  }

  /** Requesting is synchronous; entering happens when the awaited promise is resolved; leaving always unlocks. */
  function Apply(l: Lock, step: Step): (next: Lock)
    requires WellFormed(l) && Enabled(l, step)
    ensures WellFormed(next)
  {
    match step
    case Request =>
      Lock(l.resolved + [false], |l.resolved|, l.calls + [Call(l.signLock, |l.resolved|, Waiting)], l.log)
    case Enter(k) =>
      l.(calls := l.calls[k := l.calls[k].(phase := Signing)], log := l.log + [Began(k)])
    case Leave(k, ok) =>
      l.(resolved := l.resolved[l.calls[k].own := true], calls := l.calls[k := l.calls[k].(phase := Settled(ok))],
         log := l.log + [Ended(k, ok)])
  }

  /** A lock that some sequence of enabled steps leads to. */
  ghost predicate Reaches(from: Lock, steps: seq<Step>, to: Lock)
    requires WellFormed(from)
  {
    if steps == [] then to == from
    else
      exists mid :: WellFormed(mid) && Reaches(from, steps[..|steps| - 1], mid) && Enabled(mid, steps[|steps| - 1])
                 && to == Apply(mid, steps[|steps| - 1])
  }

  // ------------------------------------------------------------- invariant

  /** Call `k` waits for promise `k` and owns promise `k + 1`; the chain is resolved up to the settled calls. */
  ghost predicate Chained(l: Lock) {
    && |l.resolved| == |l.calls| + 1 && l.signLock == |l.calls| && l.resolved[0]
    && (forall k :: 0 <= k < |l.calls| ==> l.calls[k].prev == k && l.calls[k].own == k + 1)
    && (forall k :: 0 <= k < |l.calls| ==> (l.resolved[k + 1] <==> l.calls[k].phase.Settled?))
    && (forall k :: 0 <= k < |l.calls| && l.calls[k].phase != Waiting ==> l.resolved[k])
  }

  /** Every beginning is followed by its own end, one call after another. */
  ghost predicate Paired(log: seq<Event>) {
    forall i :: 0 <= i < |log| ==> if i % 2 == 0 then log[i] == Began(i / 2) else log[i].Ended? && log[i].call == i / 2
  }

  /** The log has two entries for every settled call and one for the call that is signing. */
  ghost predicate Counted(l: Lock) {
    && |l.log| <= 2 * |l.calls|
    && (forall k :: 0 <= k < |l.calls| ==> (l.calls[k].phase == Waiting <==> |l.log| <= 2 * k))
    && (forall k :: 0 <= k < |l.calls| ==> (l.calls[k].phase == Signing <==> |l.log| == 2 * k + 1))
  }

  ghost predicate Alternates(l: Lock) {
    Paired(l.log) && Counted(l)
  }

  lemma PairedGrows(log: seq<Event>, k: nat, ok: bool)
    requires Paired(log)
    ensures |log| == 2 * k ==> Paired(log + [Began(k)])
    ensures |log| == 2 * k + 1 ==> Paired(log + [Ended(k, ok)])
  {
  }

  lemma RequestKeepsChain(l: Lock)
    requires WellFormed(l) && Chained(l) && Alternates(l)
    ensures Chained(Apply(l, Request)) && Alternates(Apply(l, Request))
  {
  }

  lemma EnterKeepsChain(l: Lock, k: nat)
    requires WellFormed(l) && Chained(l) && Alternates(l) && Enabled(l, Enter(k))
    ensures Chained(Apply(l, Enter(k))) && Alternates(Apply(l, Enter(k)))
  {
    hide Paired;
    StartedInOrder(l, k);
    assert |l.log| == 2 * k;
    PairedGrows(l.log, k, true);
    var next := Apply(l, Enter(k));
    forall j | 0 <= j < |l.calls| && j != k ensures next.calls[j] == l.calls[j] {}
  }

  lemma LeaveKeepsChain(l: Lock, k: nat, ok: bool)
    requires WellFormed(l) && Chained(l) && Alternates(l) && Enabled(l, Leave(k, ok))
    ensures Chained(Apply(l, Leave(k, ok)))
  {
    hide Paired, Counted;
    var next := Apply(l, Leave(k, ok));
    assert next.resolved == l.resolved[k + 1 := true];
    forall j | 0 <= j < |l.calls| && j != k ensures next.calls[j] == l.calls[j] {}
  }

  lemma LeaveKeepsCount(l: Lock, k: nat, ok: bool)
    requires WellFormed(l) && Chained(l) && Alternates(l) && Enabled(l, Leave(k, ok))
    ensures Alternates(Apply(l, Leave(k, ok)))
  {
    assert |l.log| == 2 * k + 1;
    hide Paired, Chained;
    PairedGrows(l.log, k, ok);
    var next := Apply(l, Leave(k, ok));
    forall j | 0 <= j < |l.calls| && j != k ensures next.calls[j] == l.calls[j] {}
  }

  lemma ChainGoesOn(l: Lock, step: Step)
    requires WellFormed(l) && Chained(l) && Alternates(l) && Enabled(l, step)
    ensures Chained(Apply(l, step)) && Alternates(Apply(l, step))
  {
    hide Apply, Chained, Alternates;
    match step {
      case Request => RequestKeepsChain(l);
      case Enter(k) => EnterKeepsChain(l, k);
      case Leave(k, ok) =>
        LeaveKeepsChain(l, k, ok);
        LeaveKeepsCount(l, k, ok);
    }
  }

  /** Where call `k` may enter or is signing, the log holds exactly the calls before it (and its own beginning). */
  lemma {:induction false} StartedInOrder(l: Lock, k: nat)
    requires Chained(l) && Alternates(l) && k < |l.calls| && l.resolved[k]
    ensures forall j :: 0 <= j < k ==> l.calls[j].phase.Settled?
    ensures |l.log| >= 2 * k
    decreases k
  {
    if k > 0 {
      assert l.calls[k - 1].phase.Settled?;
      StartedInOrder(l, k - 1);
    }
  }

  lemma {:induction false} ReachableChained(steps: seq<Step>, l: Lock)
    requires Reaches(UNLOCKED, steps, l)
    ensures WellFormed(l) && Chained(l) && Alternates(l)
  {
    if steps != [] {
      var front, last := steps[..|steps| - 1], steps[|steps| - 1];
      var mid :| WellFormed(mid) && Reaches(UNLOCKED, front, mid) && Enabled(mid, last) && l == Apply(mid, last);
      ReachableChained(front, mid);
      ChainGoesOn(mid, last);
    }
  }

  // ------------------------------------------------------------- what the lock guarantees

  /** In every interleaving at most one signing call runs, and every call before it is through. */
  lemma AtMostOneSigns(steps: seq<Step>, l: Lock, j: nat, k: nat)
    requires Reaches(UNLOCKED, steps, l) && j < |l.calls| && k < |l.calls|
    requires l.calls[j].phase == Signing && l.calls[k].phase == Signing
    ensures j == k && forall i :: 0 <= i < k ==> l.calls[i].phase.Settled?
  {
    ReachableChained(steps, l);
    StartedInOrder(l, k);
    StartedInOrder(l, j);
  }

  /** Signing happens in call order, each call ending before the next begins. */
  lemma SignsInCallOrder(steps: seq<Step>, l: Lock, i: nat)
    requires Reaches(UNLOCKED, steps, l) && i < |l.log|
    ensures if i % 2 == 0 then l.log[i] == Began(i / 2) else exists ok :: l.log[i] == Ended(i / 2, ok)
  {
    ReachableChained(steps, l);
    if i % 2 == 1 {
      assert l.log[i] == Ended(i / 2, l.log[i].ok);
    }
  }

  /** The first call that is not through can always go on, whether the calls before it succeeded or failed. */
  lemma FirstUnsettledGoesOn(steps: seq<Step>, l: Lock, k: nat)
    requires Reaches(UNLOCKED, steps, l) && k < |l.calls| && !l.calls[k].phase.Settled?
    requires forall i :: 0 <= i < k ==> l.calls[i].phase.Settled?
    ensures WellFormed(l) && (Enabled(l, Enter(k)) || forall ok :: Enabled(l, Leave(k, ok)))
    ensures forall j :: j != k ==> !Enabled(l, Enter(j)) && forall ok :: !Enabled(l, Leave(j, ok))
  {
    ReachableChained(steps, l);
    FirstIsResolved(l, k);
    hide *;
    forall j: nat, ok | j != k ensures !Enabled(l, Enter(j)) && !Enabled(l, Leave(j, ok)) {
      OthersWait(l, k, j, ok);
    }
  }

  lemma FirstIsResolved(l: Lock, k: nat)
    requires WellFormed(l) && Chained(l) && k < |l.calls| && !l.calls[k].phase.Settled?
    requires forall i :: 0 <= i < k ==> l.calls[i].phase.Settled?
    ensures Enabled(l, Enter(k)) || forall ok :: Enabled(l, Leave(k, ok))
  {
    assert k > 0 ==> l.calls[k - 1].phase.Settled?;
  }

  lemma OthersWait(l: Lock, k: nat, j: nat, ok: bool)
    requires WellFormed(l) && Chained(l) && Alternates(l) && k < |l.calls| && j != k
    requires !l.calls[k].phase.Settled? && forall i :: 0 <= i < k ==> l.calls[i].phase.Settled?
    ensures !Enabled(l, Enter(j)) && !Enabled(l, Leave(j, ok))
  {
    if j < |l.calls| && l.resolved[j] && !l.calls[j].phase.Settled? {
      StartedInOrder(l, j);
    }
    hide Alternates;
  }

  /** A call counts as failed or through exactly as it ended, and one that has not ended does not count as either. */
  lemma {:induction false} OutcomesKept(steps: seq<Step>, l: Lock, k: nat, ok: bool)
    requires Reaches(UNLOCKED, steps, l) && k < |l.calls|
    ensures l.calls[k].phase == Settled(ok) <==> Leave(k, ok) in steps
    ensures l.calls[k].phase == Waiting <==> Enter(k) !in steps
    ensures Ended(k, ok) in l.log <==> Leave(k, ok) in steps
    ensures Began(k) in l.log <==> Enter(k) in steps
  {
    if steps != [] {
      var front, last := steps[..|steps| - 1], steps[|steps| - 1];
      var mid :| WellFormed(mid) && Reaches(UNLOCKED, front, mid) && Enabled(mid, last) && l == Apply(mid, last);
      assert steps == front + [last];
      if k < |mid.calls| {
        OutcomesKept(front, mid, k, ok);
      } else {
        NotYetCalled(front, mid, k, ok);
      }
    }
  }

  lemma {:induction false} NotYetCalled(steps: seq<Step>, l: Lock, k: nat, ok: bool)
    requires Reaches(UNLOCKED, steps, l) && k >= |l.calls|
    ensures Leave(k, ok) !in steps && Enter(k) !in steps && Ended(k, ok) !in l.log && Began(k) !in l.log
  {
    if steps != [] {
      var front, last := steps[..|steps| - 1], steps[|steps| - 1];
      var mid :| WellFormed(mid) && Reaches(UNLOCKED, front, mid) && Enabled(mid, last) && l == Apply(mid, last);
      assert steps == front + [last];
      NotYetCalled(front, mid, k, ok);
    }
  }

  // ------------------------------------------------------------- the lock as an object

  class PromiseLock {
    var resolved: seq<bool>
    var signLock: nat
    var calls: seq<Call>
    ghost var log: seq<Event>

    ghost function State(): Lock
      reads this
    {
      Lock(resolved, signLock, calls, log)
    }

    /** The promises form a chain, and the log so far alternates between beginnings and ends in call order. */
    ghost predicate Valid()
      reads this
    {
      WellFormed(State()) && Chained(State()) && Alternates(State())
    }

    constructor ()
      ensures Valid() && State() == UNLOCKED
    {
      resolved, signLock, calls, log := [true], 0, [], [];
    }

    /** The synchronous part of a call: remember the promise of the call before and put a new one in its place. */
    method WithSign() returns (call: nat)
      requires Valid()
      modifies this
      ensures Valid() && State() == Apply(old(State()), Request)
      ensures call == |old(calls)| && calls == old(calls) + [Call(call, call + 1, Waiting)]
    {
      RequestKeepsChain(State());
      hide Chained, Alternates;
      var prev := signLock;
      var own := |resolved|;
      resolved := resolved + [false];
      signLock := own;
      call := |calls|;
      calls := calls + [Call(prev, own, Waiting)];
      ChainNumbers(old(State()));
    }

    /** The awaited promise is resolved and the signing function starts: every call before is through, none signs. */
    method Start(call: nat)
      requires Valid() && Enabled(State(), Enter(call))
      modifies this
      ensures Valid() && State() == Apply(old(State()), Enter(call))
      ensures forall k :: 0 <= k < call ==> calls[k].phase.Settled?
      ensures forall k :: 0 <= k < |calls| && calls[k].phase == Signing ==> k == call
    {
      EnterKeepsChain(State(), call);
      ghost var after := Apply(State(), Enter(call));
      SigningAlone(after, call);
      hide Chained, Alternates;
      calls := calls[call := calls[call].(phase := Signing)];
      log := log + [Began(call)];
    }

    /** The signing function returned or threw; either way the next call is unlocked. */
    method Finish(call: nat, ok: bool)
      requires Valid() && Enabled(State(), Leave(call, ok))
      modifies this
      ensures Valid() && State() == Apply(old(State()), Leave(call, ok))
      ensures call + 1 < |calls| ==> Enabled(State(), Enter(call + 1))
      ensures forall k :: 0 <= k < |calls| ==> calls[k].phase != Signing
    {
      LeaveKeepsChain(State(), call, ok);
      LeaveKeepsCount(State(), call, ok);
      NextUnlocked(State(), call, ok);
      hide Chained, Alternates;
      resolved := resolved[calls[call].own := true];
      calls := calls[call := calls[call].(phase := Settled(ok))];
      log := log + [Ended(call, ok)];
    }
  }

  lemma ChainNumbers(l: Lock)
    requires Chained(l)
    ensures l.signLock == |l.calls| && |l.resolved| == |l.calls| + 1
  {
  }

  lemma SigningAlone(l: Lock, k: nat)
    requires WellFormed(l) && Chained(l) && Alternates(l) && k < |l.calls| && l.calls[k].phase == Signing
    ensures forall j :: 0 <= j < k ==> l.calls[j].phase.Settled?
    ensures forall j :: 0 <= j < |l.calls| && l.calls[j].phase == Signing ==> j == k
  {
    StartedInOrder(l, k);
  }

  lemma NextUnlocked(l: Lock, k: nat, ok: bool)
    requires WellFormed(l) && Chained(l) && Alternates(l) && Enabled(l, Leave(k, ok))
    ensures var next := Apply(l, Leave(k, ok));
            && (k + 1 < |next.calls| ==> Enabled(next, Enter(k + 1)))
            && forall j :: 0 <= j < |next.calls| ==> next.calls[j].phase != Signing
  {
    SigningAlone(l, k);
    if k + 1 < |l.calls| {
      assert !l.resolved[k + 1];
      assert l.calls[k + 1].phase == Waiting;
    }
  }
}
