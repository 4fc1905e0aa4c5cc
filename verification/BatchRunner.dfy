/** Running a batch with bounded concurrency, in order, until an abort; every entry is reported once. */
module BatchRunner {

  /** What one entry's execution came to. A thrown error and a `null` both count as failed. */
  datatype Verdict = Success | Failure | Unconfirmed | Cancelled | Threw

  /** Where the runner is: at the head of its loop, waiting for one of `raced`, waiting for all, or done. */
  datatype Stage = Looping | Racing(raced: set<nat>) | Draining | Done

  datatype Buckets = Buckets(succeeded: seq<nat>, failed: seq<nat>, unconfirmed: seq<nat>, cancelled: seq<nat>)

  datatype Runner = Runner(count: nat, limit: int, aborted: bool, started: nat, stage: Stage, active: set<nat>,
                           buckets: Buckets)

  function Initial(count: nat, limit: int): Runner {
    Runner(count, limit, false, 0, Looping, {}, Buckets([], [], [], []))
  }

  datatype Step = Abort | LoopHead | Settle(entry: nat, verdict: Verdict) | Resume | Finish

  predicate Enabled(r: Runner, step: Step) {
    match step
    case Abort => true
    case LoopHead => r.stage.Looping?
    case Settle(i, _) => i in r.active
    case Resume => r.stage.Racing? && r.active != r.stage.raced
    case Finish => r.stage.Draining? && r.active == {}
  }

  function Push(b: Buckets, i: nat, verdict: Verdict): Buckets {
    match verdict
    case Success => b.(succeeded := b.succeeded + [i])
    case Failure => b.(failed := b.failed + [i])
    case Unconfirmed => b.(unconfirmed := b.unconfirmed + [i])
    case Cancelled => b.(cancelled := b.cancelled + [i])
    case Threw => b.(failed := b.failed + [i])
  }

  function Range(begin: nat, end: nat): (r: seq<nat>)
    requires begin <= end
    ensures |r| == end - begin && forall k :: 0 <= k < |r| ==> r[k] == begin + k
  {
    seq(end - begin, k requires 0 <= k < end - begin => begin + k)
  }

  function Apply(r: Runner, step: Step): Runner
    requires Enabled(r, step) && r.started <= r.count
  {
    match step
    case Abort => r.(aborted := true)
    case LoopHead =>
      if r.started == r.count || r.aborted then r.(stage := Draining)
      else
        var active := r.active + {r.started};
        r.(started := r.started + 1, active := active, stage := if |active| >= r.limit then Racing(active) else Looping)
    case Settle(i, verdict) => r.(active := r.active - {i}, buckets := Push(r.buckets, i, verdict))
    case Resume => r.(stage := Looping)
    case Finish =>
      r.(stage := Done, buckets := r.buckets.(cancelled := r.buckets.cancelled + Range(r.started, r.count)))
  }

  function Bound(limit: int): nat {
    if limit > 1 then limit else 1
  }

  /** How often entry `i` is reported. */
  function Reported(b: Buckets, i: nat): nat {
    multiset(b.succeeded)[i] + multiset(b.failed)[i] + multiset(b.unconfirmed)[i] + multiset(b.cancelled)[i]
  }

  /** The started entries are a prefix; each is either active or reported once, and the others neither. */
  ghost predicate Accounted(r: Runner) {
    && r.started <= r.count
    && (forall i :: i in r.active ==> i < r.started)
    && (forall i: nat :: i in r.active ==> Reported(r.buckets, i) == 0)
    && (forall i: nat :: i < r.started && i !in r.active ==> Reported(r.buckets, i) == 1)
    && (forall i: nat :: r.started <= i < r.count ==> Reported(r.buckets, i) == (if r.stage.Done? then 1 else 0))
    && (forall i: nat :: i >= r.count ==> Reported(r.buckets, i) == 0)
    && (r.stage.Done? ==> r.active == {})
  }

  ghost predicate Bounded(r: Runner) {
    && |r.active| <= Bound(r.limit)
    && (r.stage.Looping? ==> |r.active| < Bound(r.limit))
    && (r.stage.Racing? ==> r.active <= r.stage.raced && r.stage.raced != {} && |r.stage.raced| <= Bound(r.limit))
  }

  /** Started entries and the batch itself: what a step may not change. */
  ghost predicate Follows(before: Runner, after: Runner) {
    && after.count == before.count && after.limit == before.limit
    && before.started <= after.started && (before.aborted ==> after.aborted && after.started == before.started)
  }

  lemma {:induction false} RangeOnce(begin: nat, end: nat, i: nat)
    requires begin <= end
    ensures multiset(Range(begin, end))[i] == (if begin <= i < end then 1 else 0)
    decreases end
  {
    if begin < end {
      assert Range(begin, end) == Range(begin, end - 1) + [end - 1];
      RangeOnce(begin, end - 1, i);
    }
  }

  lemma PushReports(b: Buckets, i: nat, verdict: Verdict, j: nat)
    ensures Reported(Push(b, i, verdict), j) == Reported(b, j) + (if i == j then 1 else 0)
  {
  }

  lemma FewerActive(active: set<nat>, i: nat)
    requires i in active
    ensures |active - {i}| == |active| - 1
  {
  }

  lemma SubsetBound(a: set<nat>, b: set<nat>)
    requires a <= b
    ensures |a| <= |b| && (a != b ==> |a| < |b|)
  {
    assert b == a + (b - a);
    if a != b {
      var x :| x in b && x !in a;
      assert x in b - a;
    }
  }

  lemma LoopHeadKeeps(r: Runner)
    requires Accounted(r) && Bounded(r) && Enabled(r, LoopHead)
    ensures Accounted(Apply(r, LoopHead)) && Bounded(Apply(r, LoopHead)) && Follows(r, Apply(r, LoopHead))
  {
    hide Reported;
    assert r.started !in r.active;
  }

  lemma SettleKeeps(r: Runner, i: nat, verdict: Verdict)
    requires Accounted(r) && Bounded(r) && Enabled(r, Settle(i, verdict))
    ensures var next := Apply(r, Settle(i, verdict)); Accounted(next) && Bounded(next) && Follows(r, next)
  {
    hide Reported, Push;
    var next := Apply(r, Settle(i, verdict));
    FewerActive(r.active, i);
    forall j: nat ensures Reported(next.buckets, j) == Reported(r.buckets, j) + (if i == j then 1 else 0) {
      PushReports(r.buckets, i, verdict, j);
    }
  }

  lemma FinishKeeps(r: Runner)
    requires Accounted(r) && Bounded(r) && Enabled(r, Finish)
    ensures Accounted(Apply(r, Finish)) && Bounded(Apply(r, Finish)) && Follows(r, Apply(r, Finish))
  {
    var next := Apply(r, Finish);
    forall j: nat
      ensures Reported(next.buckets, j) == Reported(r.buckets, j) + (if r.started <= j < r.count then 1 else 0)
    {
      RangeOnce(r.started, r.count, j);
    }
    hide Reported;
  }

  /** One step of any kind keeps the account and the bound, and never starts an entry after an abort. */
  lemma StepKeeps(r: Runner, step: Step)
    requires Accounted(r) && Bounded(r) && Enabled(r, step)
    ensures Accounted(Apply(r, step)) && Bounded(Apply(r, step)) && Follows(r, Apply(r, step))
  {
    hide Reported;
    match step {
      case LoopHead => LoopHeadKeeps(r);
      case Settle(i, verdict) => SettleKeeps(r, i, verdict);
      case Resume => SubsetBound(r.active, r.stage.raced);
      case Finish => FinishKeeps(r);
      case Abort =>
    }
  }

  /** The state after some enabled steps. */
  ghost predicate Reaches(from: Runner, steps: seq<Step>, to: Runner) {
    if steps == [] then to == from
    else
      exists mid :: Reaches(from, steps[..|steps| - 1], mid) && Enabled(mid, steps[|steps| - 1])
                 && mid.started <= mid.count && to == Apply(mid, steps[|steps| - 1])
  }

  lemma {:induction false} ReachableKeeps(from: Runner, steps: seq<Step>, to: Runner)
    requires Accounted(from) && Bounded(from) && Reaches(from, steps, to)
    ensures Accounted(to) && Bounded(to) && Follows(from, to)
  {
    if steps != [] {
      var front, last := steps[..|steps| - 1], steps[|steps| - 1];
      var mid :| Reaches(from, front, mid) && Enabled(mid, last) && mid.started <= mid.count && to == Apply(mid, last);
      ReachableKeeps(from, front, mid);
      StepKeeps(mid, last);
    }
  }

  lemma InitialKeeps(count: nat, limit: int)
    ensures Accounted(Initial(count, limit)) && Bounded(Initial(count, limit))
  {
  }

  /** Under any completion order, at most max(1, limit) entries run at once and the started ones are a prefix. */
  lemma RunsBounded(count: nat, limit: int, steps: seq<Step>, r: Runner)
    requires Reaches(Initial(count, limit), steps, r)
    ensures |r.active| <= Bound(limit)
    ensures r.started <= count && forall i :: i in r.active ==> i < r.started
  {
    InitialKeeps(count, limit);
    ReachableKeeps(Initial(count, limit), steps, r);
  }

  /** Once the abort has happened, no entry is started any more, whatever else goes on. */
  lemma NoneStartsAfterAbort(count: nat, limit: int, before: seq<Step>, r: Runner, after: seq<Step>, later: Runner)
    requires Reaches(Initial(count, limit), before, r) && r.aborted
    requires Reaches(r, after, later)
    ensures later.started == r.started
  {
    InitialKeeps(count, limit);
    ReachableKeeps(Initial(count, limit), before, r);
    ReachableKeeps(r, after, later);
  }

  /** When the runner is done, every index is in exactly one bucket, once; the ones never started are cancelled. */
  lemma EveryEntryReportedOnce(count: nat, limit: int, steps: seq<Step>, r: Runner)
    requires Reaches(Initial(count, limit), steps, r) && r.stage.Done?
    ensures forall i: nat :: Reported(r.buckets, i) == (if i < count then 1 else 0)
    ensures r.started < count ==> r.aborted
    ensures forall i: nat :: r.started <= i < count ==> i in r.buckets.cancelled
  {
    InitialKeeps(count, limit);
    ReachableKeeps(Initial(count, limit), steps, r);
    StoppedEarly(count, limit, steps, r);
  }

  lemma {:induction false} StoppedEarly(count: nat, limit: int, steps: seq<Step>, r: Runner)
    requires Reaches(Initial(count, limit), steps, r)
    ensures r.stage.Draining? || r.stage.Done? ==> r.started == r.count || r.aborted
    ensures r.stage.Done? ==> forall i: nat :: r.started <= i < r.count ==> i in r.buckets.cancelled
  {
    if steps != [] {
      var from, front, last := Initial(count, limit), steps[..|steps| - 1], steps[|steps| - 1];
      var mid :| Reaches(from, front, mid) && Enabled(mid, last) && mid.started <= mid.count && r == Apply(mid, last);
      StoppedEarly(count, limit, front, mid);
      InitialKeeps(count, limit);
      ReachableKeeps(from, front, mid);
      if last.Finish? {
        forall i: nat | r.started <= i < r.count ensures i in r.buckets.cancelled {
          assert Range(mid.started, mid.count)[i - mid.started] == i;
        }
      }
    }
  }

  /** The runner is never stuck: until it is done, it can go on by itself or one of its running entries can settle. */
  lemma NeverStuck(count: nat, limit: int, steps: seq<Step>, r: Runner)
    requires Reaches(Initial(count, limit), steps, r) && !r.stage.Done?
    ensures Enabled(r, LoopHead) || Enabled(r, Resume) || Enabled(r, Finish)
         || exists i :: i in r.active && forall v :: Enabled(r, Settle(i, v))
  {
    InitialKeeps(count, limit);
    ReachableKeeps(Initial(count, limit), steps, r);
    if r.active != {} {
      var i :| i in r.active;
      assert forall v :: Enabled(r, Settle(i, v));
    }
  }

  // ------------------------------------------------------------- every list holds what its name says

  /** Each list holds exactly the entries that settled that way, and the cancelled one those never started as well. */
  ghost predicate ListsTell(steps: seq<Step>, r: Runner) {
    && (forall i: nat :: i in r.buckets.succeeded <==> Settle(i, Success) in steps)
    && (forall i: nat :: i in r.buckets.failed <==> Settle(i, Failure) in steps || Settle(i, Threw) in steps)
    && (forall i: nat :: i in r.buckets.unconfirmed <==> Settle(i, Unconfirmed) in steps)
    && (forall i: nat :: i in r.buckets.cancelled <==>
          Settle(i, Cancelled) in steps || (r.stage.Done? && r.started <= i < r.count))
  }

  lemma FinishedTells(r: Runner, i: nat)
    requires Enabled(r, Finish) && r.started <= r.count
    ensures i in Apply(r, Finish).buckets.cancelled <==> i in r.buckets.cancelled || r.started <= i < r.count
  {
    if r.started <= i < r.count {
      assert Range(r.started, r.count)[i - r.started] == i;
    }
  }

  lemma StepTells(r: Runner, steps: seq<Step>, last: Step)
    requires ListsTell(steps, r) && Enabled(r, last) && r.started <= r.count && (last != Abort ==> !r.stage.Done?)
    ensures ListsTell(steps + [last], Apply(r, last))
  {
    forall step ensures step in steps + [last] <==> step in steps || step == last {}
    if last.Finish? {
      forall i: nat {
        FinishedTells(r, i);
      }
    }
  }

  lemma NotDoneYet(count: nat, limit: int, front: seq<Step>, mid: Runner, last: Step)
    requires Reaches(Initial(count, limit), front, mid) && Enabled(mid, last)
    ensures last != Abort ==> !mid.stage.Done?
  {
    hide Reaches, Bounded, Reported;
    InitialKeeps(count, limit);
    ReachableKeeps(Initial(count, limit), front, mid);
  }

  lemma NothingSettled(count: nat, limit: int)
    ensures ListsTell([], Initial(count, limit))
  {
  }

  lemma {:induction false} SettledAsListed(count: nat, limit: int, steps: seq<Step>, r: Runner)
    requires Reaches(Initial(count, limit), steps, r)
    ensures ListsTell(steps, r)
  {
    hide ListsTell, Apply;
    if steps == [] {
      NothingSettled(count, limit);
    } else {
      var from, front, last := Initial(count, limit), steps[..|steps| - 1], steps[|steps| - 1];
      var mid :| Reaches(from, front, mid) && Enabled(mid, last) && mid.started <= mid.count && r == Apply(mid, last);
      SettledAsListed(count, limit, front, mid);
      NotDoneYet(count, limit, front, mid, last);
      hide Reaches;
      assert steps == front + [last];
      StepTells(mid, front, last);
    }
  }

  // ------------------------------------------------------------- the batch ends

  function Weight(stage: Stage): nat {
    match stage
    case Looping => 2
    case Racing(_) => 3
    case Draining => 1
    case Done => 0
  }

  /** What is left to do: starting an entry, settling it and resuming after it cost one move each. */
  function Remaining(r: Runner): nat
    requires r.started <= r.count
  {
    3 * (r.count - r.started) + |r.active| + Weight(r.stage)
  }

  /** The steps of the runner itself and of its entries; the abort signal comes from outside. */
  function Moves(steps: seq<Step>): nat {
    if steps == [] then 0
    else Moves(steps[..|steps| - 1]) + (if steps[|steps| - 1].Abort? then 0 else 1)
  }

  lemma StepSpends(r: Runner, step: Step)
    requires Accounted(r) && Enabled(r, step)
    ensures var next := Apply(r, step);
            next.started <= next.count && Remaining(next) + (if step.Abort? then 0 else 1) <= Remaining(r)
  {
    hide Reported, Push;
    match step {
      case LoopHead => assert r.started !in r.active;
      case Settle(i, _) => FewerActive(r.active, i);
      case _ =>
    }
  }

  /**
   * Every run ends: however entries settle and whenever the abort comes, there are at most three moves for each entry
   * and two more, and a run that has used them up is done.
   */
  lemma {:induction false} RunEnds(count: nat, limit: int, steps: seq<Step>, r: Runner)
    requires Reaches(Initial(count, limit), steps, r)
    ensures Moves(steps) <= 3 * count + 2
    ensures r.started <= r.count && Moves(steps) + Remaining(r) <= 3 * count + 2
    ensures Moves(steps) == 3 * count + 2 ==> r.stage.Done?
  {
    hide Reported, Push;
    var from := Initial(count, limit);
    InitialKeeps(count, limit);
    if steps != [] {
      var front, last := steps[..|steps| - 1], steps[|steps| - 1];
      var mid :| Reaches(from, front, mid) && Enabled(mid, last) && mid.started <= mid.count && r == Apply(mid, last);
      RunEnds(count, limit, front, mid);
      ReachableKeeps(from, front, mid);
      StepSpends(mid, last);
    }
  }

  // ------------------------------------------------------------- the runner as an object

  class BatchRun {
    const count: nat
    const limit: int
    var aborted: bool
    var started: nat
    var stage: Stage
    var active: set<nat>
    var buckets: Buckets

    ghost function State(): Runner
      reads this
    {
      Runner(count, limit, aborted, started, stage, active, buckets)
    }

    ghost predicate Valid()
      reads this
    {
      Accounted(State()) && Bounded(State())
    }

    constructor (count: nat, limit: int)
      ensures State() == Initial(count, limit) && Valid()
    {
      this.count, this.limit := count, limit;
      aborted, started, stage, active, buckets := false, 0, Looping, {}, Buckets([], [], [], []);
      new;
      InitialKeeps(count, limit);
    }

    method SignalAbort()
      requires Valid()
      modifies this
      ensures State() == Apply(old(State()), Abort) && Valid()
    {
      StepKeeps(State(), Abort);
      aborted := true;
    }

    /** One turn of the loop: stop on abort or at the end, otherwise start an entry and wait if the limit is reached. */
    method Turn()
      requires Valid() && stage.Looping?
      modifies this
      ensures State() == Apply(old(State()), LoopHead) && Valid()
    {
      StepKeeps(State(), LoopHead);
      if started == count || aborted {
        stage := Draining;
        return;
      }
      active := active + {started};
      started := started + 1;
      if |active| >= limit {
        stage := Racing(active);
      }
    }

    method EntrySettled(entry: nat, verdict: Verdict)
      requires Valid() && entry in active
      modifies this
      ensures State() == Apply(old(State()), Settle(entry, verdict)) && Valid()
      ensures active == old(active) - {entry} && started == old(started)
      ensures buckets.succeeded == old(buckets.succeeded) + (if verdict == Success then [entry] else [])
      ensures buckets.failed == old(buckets.failed) + (if verdict in {Failure, Threw} then [entry] else [])
      ensures buckets.unconfirmed == old(buckets.unconfirmed) + (if verdict == Unconfirmed then [entry] else [])
      ensures buckets.cancelled == old(buckets.cancelled) + (if verdict == Cancelled then [entry] else [])
    {
      StepKeeps(State(), Settle(entry, verdict));
      match verdict {
        case Success => buckets := buckets.(succeeded := buckets.succeeded + [entry]);
        case Unconfirmed => buckets := buckets.(unconfirmed := buckets.unconfirmed + [entry]);
        case Cancelled => buckets := buckets.(cancelled := buckets.cancelled + [entry]);
        case _ => buckets := buckets.(failed := buckets.failed + [entry]);
      }
      active := active - {entry};
    }

    method RaceWon()
      requires Valid() && Enabled(State(), Resume)
      modifies this
      ensures State() == Apply(old(State()), Resume) && Valid()
    {
      StepKeeps(State(), Resume);
      stage := Looping;
    }

    /** After the last running entry: whatever was never started is reported as cancelled. */
    method Close()
      requires Valid() && Enabled(State(), Finish)
      modifies this
      ensures State() == Apply(old(State()), Finish) && Valid()
    {
      StepKeeps(State(), Finish);
      var cancelled := buckets.cancelled;
      for j := started to count
        invariant cancelled == buckets.cancelled + Range(started, j)
      {
        cancelled := cancelled + [j];
      }
      buckets := buckets.(cancelled := cancelled);
      stage := Done;
    }
  }

  // ------------------------------------------------------------- the overall phase

  datatype Phase = Ready | FailedPhase | UnconfirmedPhase | Working(name: string)

  function FirstPresent(order: seq<Phase>, phases: seq<Phase>): (r: Phase)
    requires order != []
    ensures r in order
  {
    if order[0] in phases || |order| == 1 then order[0] else FirstPresent(order[1..], phases)
  }

  function OverallPhase(phases: seq<Phase>, intermediate: seq<Phase>): Phase {
    if forall i :: 0 <= i < |phases| ==> phases[i] == Ready then Ready
    else if forall i :: 0 <= i < |phases| ==> phases[i] in {Ready, FailedPhase} then
      if Ready in phases then Ready else FailedPhase
    else if forall i :: 0 <= i < |phases| ==> phases[i] in {Ready, FailedPhase, UnconfirmedPhase} then UnconfirmedPhase
    else if intermediate == [] then FailedPhase
    else FirstPresent(intermediate, phases)
  }

  /** The phase at `k` is the first that occurs, or the last of all when none does. */
  ghost predicate FirstIn(order: seq<Phase>, phases: seq<Phase>, k: nat) {
    && k < |order| && (order[k] in phases || k == |order| - 1)
    && forall i :: 0 <= i < k ==> order[i] !in phases
  }

  lemma {:induction false} FirstPresentIs(order: seq<Phase>, phases: seq<Phase>) returns (k: nat)
    requires order != []
    ensures FirstIn(order, phases, k) && FirstPresent(order, phases) == order[k]
  {
    k := 0;
    if order[0] !in phases && |order| > 1 {
      k := FirstPresentIs(order[1..], phases);
      k := k + 1;
    }
  }

  /** While an entry works, the summary is the most important of the intermediate phases that occurs. */
  lemma OverallPhaseWorking(phases: seq<Phase>, intermediate: seq<Phase>) returns (k: nat)
    requires exists p :: p in phases && p.Working?
    ensures intermediate != [] ==>
              FirstIn(intermediate, phases, k) && OverallPhase(phases, intermediate) == intermediate[k]
    ensures intermediate == [] ==> OverallPhase(phases, intermediate) == FailedPhase
  {
    var i :| 0 <= i < |phases| && phases[i].Working?;
    k := 0;
    if intermediate != [] {
      k := FirstPresentIs(intermediate, phases);
    }
  }

  /** The summary never reports success or an unknown outcome while an entry is still working, nor success while one is
   * unknown; it depends only on which phases occur. */
  lemma OverallPhaseMeaning(phases: seq<Phase>, intermediate: seq<Phase>)
    requires forall i :: 0 <= i < |intermediate| ==> intermediate[i].Working?
    ensures OverallPhase(phases, intermediate) == Ready <==>
              && (forall p :: p in phases ==> p in {Ready, FailedPhase})
              && (Ready in phases || phases == [])
    ensures OverallPhase(phases, intermediate) == UnconfirmedPhase <==>
              && (forall p :: p in phases ==> !p.Working?) && UnconfirmedPhase in phases
    ensures forall other :: (forall p :: p in phases <==> p in other) ==>
              OverallPhase(other, intermediate) == OverallPhase(phases, intermediate)
  {
    forall other | forall p :: p in phases <==> p in other
      ensures OverallPhase(other, intermediate) == OverallPhase(phases, intermediate)
    {
      assert forall i :: 0 <= i < |phases| ==> phases[i] in other;
      assert forall i :: 0 <= i < |other| ==> other[i] in phases;
      if intermediate != [] {
        SamePresent(intermediate, phases, other);
      }
    }
    assert phases != [] ==> phases[0] in phases;
    assert forall i :: 0 <= i < |phases| ==> phases[i] in phases;
  }

  lemma {:induction false} SamePresent(order: seq<Phase>, phases: seq<Phase>, other: seq<Phase>)
    requires order != [] && forall p :: p in phases <==> p in other
    ensures FirstPresent(order, phases) == FirstPresent(order, other)
  {
    if |order| > 1 {
      SamePresent(order[1..], phases, other);
    }
  }
}
