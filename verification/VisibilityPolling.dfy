/** One lifecycle of the polling hook: timers, the callback in flight and the visibility of the document. */
module VisibilityPolling {
  import opened Options

  /** The options are read on each use and may change at any time; `cap` is the maximum multiplier. */
  datatype Settings = Settings(backoff: bool, cap: real)

  /**
   * `live` holds the delay of every timer that has neither fired nor been cleared, and `running` counts the callbacks
   * that have been started and not settled, whatever the flag `inFlight` says.
   */
  datatype Poll = Poll(
    interval: real, settings: Settings, mounted: bool, hidden: bool, failures: nat, timeoutId: Option<nat>,
    inFlight: bool, tickBackoff: bool, live: map<nat, real>, nextId: nat, running: nat)

  datatype Result = Succeeded | Failed | Threw

  datatype Op =
    | Toggle
    | HiddenBecomes(hidden: bool)
    | VisibilityEvent
    | TimerFires(id: nat)
    | Settles(result: Result)
    | SettingsChange(settings: Settings)
    | Unmount

  function Power2(n: nat): nat {
    if n == 0 then 1 else 2 * Power2(n - 1)
  }

  function Min(a: real, b: real): real {
    if a <= b then a else b
  }

  function Max(a: real, b: real): real {
    if a >= b then a else b
  }

  function Delay(interval: real, settings: Settings, failures: nat): real {
    if !settings.backoff || failures == 0 then interval
    else interval * Min(Power2(failures) as real, settings.cap)
  }

  function ScheduleNext(p: Poll): Poll {
    if !p.mounted then p
    else
      p.(timeoutId := Some(p.nextId), nextId := p.nextId + 1,
         live := p.live[p.nextId := Delay(p.interval, p.settings, p.failures)])
  }

  /** Starts the callback unless one is in flight; whether failures count is decided now. */
  function Tick(p: Poll): Poll {
    if !p.mounted || p.inFlight || p.hidden then p
    else p.(inFlight := true, running := p.running + 1, tickBackoff := p.settings.backoff)
  }

  function Settle(p: Poll, result: Result): Poll {
    if p.running == 0 then p
    else
      var failures :=
        if !p.tickBackoff then p.failures else if result == Succeeded then 0 else p.failures + 1;
      var done := p.(inFlight := false, running := p.running - 1, failures := failures);
      if p.mounted && !p.hidden then ScheduleNext(done) else done
  }

  function ClearTimer(p: Poll): Poll {
    if p.timeoutId.None? then p else p.(live := p.live - {p.timeoutId.value}, timeoutId := None)
  }

  function HandleVisibilityChange(p: Poll): Poll {
    if !p.mounted then p
    else if p.hidden then ClearTimer(p)
    else
      var reset := p.(failures := 0);
      if reset.inFlight then reset else Tick(reset)
  }

  function Apply(p: Poll, op: Op): Poll {
    match op
    case Toggle => HandleVisibilityChange(p.(hidden := !p.hidden))
    case HiddenBecomes(hidden) => p.(hidden := hidden)
    case VisibilityEvent => HandleVisibilityChange(p)
    case TimerFires(id) => if id in p.live then Tick(p.(live := p.live - {id})) else p
    case Settles(result) => Settle(p, result)
    case SettingsChange(settings) => p.(settings := settings)
    case Unmount => ClearTimer(p.(mounted := false))
  }

  function Run(p: Poll, ops: seq<Op>): Poll {
    if ops == [] then p else Apply(Run(p, ops[..|ops| - 1]), ops[|ops| - 1])
  }

  function Mount(interval: real, settings: Settings, hidden: bool, immediate: bool): Poll {
    var p := Poll(interval, settings, true, hidden, 0, None, false, false, map[], 0, 0);
    if hidden then p else if immediate then Tick(p) else ScheduleNext(p)
  }

  // ------------------------------------------------------------- callbacks never overlap

  predicate Serial(p: Poll) {
    p.running <= 1 && (p.inFlight <==> p.running == 1)
  }

  lemma StepKeepsSerial(p: Poll, op: Op)
    requires Serial(p)
    ensures Serial(Apply(p, op))
  {
    hide Delay;
  }

  /** Whatever happens in whatever order, at most one callback is running. */
  lemma {:induction false} NeverOverlaps(interval: real, settings: Settings, hidden: bool, immediate: bool,
                                         ops: seq<Op>)
    ensures Serial(Run(Mount(interval, settings, hidden, immediate), ops))
  {
    hide Delay, Apply;
    if ops != [] {
      NeverOverlaps(interval, settings, hidden, immediate, ops[..|ops| - 1]);
      StepKeepsSerial(Run(Mount(interval, settings, hidden, immediate), ops[..|ops| - 1]), ops[|ops| - 1]);
    }
  }

  // ------------------------------------------------------------- polling neither stalls nor doubles

  /** While polling goes on, either a callback is in flight or one timer is live; otherwise no timer is live. */
  ghost predicate Paced(p: Poll) {
    && (p.timeoutId.Some? ==> p.timeoutId.value < p.nextId)
    && (if p.mounted && !p.hidden && !p.inFlight then p.timeoutId.Some? && p.live.Keys == {p.timeoutId.value}
        else p.live.Keys == {})
  }

  /** The document changes its visibility and announces it in one step. */
  predicate Atomic(op: Op) {
    !op.HiddenBecomes? && !op.VisibilityEvent?
  }

  lemma StepKeepsPace(p: Poll, op: Op)
    requires Serial(p) && Paced(p) && Atomic(op)
    ensures Paced(Apply(p, op))
  {
    hide Delay;
  }

  lemma MountPaced(interval: real, settings: Settings, hidden: bool, immediate: bool)
    ensures Paced(Mount(interval, settings, hidden, immediate))
  {
  }

  lemma {:induction false} KeepsPace(interval: real, settings: Settings, hidden: bool, immediate: bool, ops: seq<Op>)
    requires forall i :: 0 <= i < |ops| ==> Atomic(ops[i])
    ensures Paced(Run(Mount(interval, settings, hidden, immediate), ops))
  {
    hide Delay, Apply, Paced, Serial;
    if ops == [] {
      MountPaced(interval, settings, hidden, immediate);
    } else {
      var front := ops[..|ops| - 1];
      KeepsPace(interval, settings, hidden, immediate, front);
      NeverOverlaps(interval, settings, hidden, immediate, front);
      StepKeepsPace(Run(Mount(interval, settings, hidden, immediate), front), ops[|ops| - 1]);
    }
  }

  /**
   * An announcement without a change may only hide, or find a callback in flight; a change without an announcement
   * must find a callback in flight.
   */
  predicate Harmless(p: Poll, op: Op) {
    match op
    case VisibilityEvent => !p.mounted || p.hidden || p.inFlight
    case HiddenBecomes(hidden) => !p.mounted || hidden == p.hidden || p.inFlight
    case _ => true
  }

  lemma StepKeepsPaceExactly(p: Poll, op: Op)
    requires Serial(p) && Paced(p)
    ensures Paced(Apply(p, op)) <==> Harmless(p, op)
  {
    hide Delay;
    if Atomic(op) {
      StepKeepsPace(p, op);
    }
  }

  ghost predicate PacedThroughout(p: Poll, ops: seq<Op>) {
    Paced(Run(p, ops)) && (ops != [] ==> PacedThroughout(p, ops[..|ops| - 1]))
  }

  predicate HarmlessThroughout(p: Poll, ops: seq<Op>) {
    ops == []
    || (HarmlessThroughout(p, ops[..|ops| - 1]) && Harmless(Run(p, ops[..|ops| - 1]), ops[|ops| - 1]))
  }

  /** A run keeps the pace throughout if and only if every announcement and every silent change in it is harmless. */
  lemma {:induction false} KeepsPaceExactly(interval: real, settings: Settings, hidden: bool, immediate: bool,
                                            ops: seq<Op>)
    ensures var start := Mount(interval, settings, hidden, immediate);
            PacedThroughout(start, ops) <==> HarmlessThroughout(start, ops)
  {
    hide Apply, Paced, Serial, Harmless;
    if ops == [] {
      MountPaced(interval, settings, hidden, immediate);
    } else {
      var front, p := ops[..|ops| - 1], Run(Mount(interval, settings, hidden, immediate), ops[..|ops| - 1]);
      KeepsPaceExactly(interval, settings, hidden, immediate, front);
      NeverOverlaps(interval, settings, hidden, immediate, front);
      if Paced(p) {
        StepKeepsPaceExactly(p, ops[|ops| - 1]);
      }
    }
  }

  /** A second announcement of an already visible document would leave two timers live for good. */
  lemma RepeatedEventDoubles(interval: real, settings: Settings)
    ensures var p := Run(Mount(interval, settings, false, false), [VisibilityEvent, Settles(Succeeded)]);
            p.mounted && !p.hidden && !p.inFlight && p.live.Keys == {0, 1}
  {
    var ops := [VisibilityEvent, Settles(Succeeded)];
    assert ops[..1] == [VisibilityEvent] && ops[..1][..0] == [];
    var p := Mount(interval, settings, false, false);
    assert Run(p, []) == p;
    assert Run(p, ops[..1]) == Apply(p, VisibilityEvent);
  }

  // ------------------------------------------------------------- delays

  /** A delay that backs off is capped, and each failure doubles it until it reaches the cap. */
  lemma BackoffDoubles(interval: real, cap: real, failures: nat)
    requires interval >= 0.0 && failures >= 1
    ensures var settings := Settings(true, cap);
            && Delay(interval, settings, failures) <= interval * cap
            && (cap >= 0.0 ==>
                  Delay(interval, settings, failures + 1)
                    == Min(2.0 * Delay(interval, settings, failures), interval * cap))
  {
    var power := Power2(failures) as real;
    assert Power2(failures + 1) as real == 2.0 * power;
    Scales(interval, power, cap);
    Scales(interval, 2.0 * power, cap);
  }

  lemma Scales(interval: real, a: real, b: real)
    requires interval >= 0.0
    ensures interval * Min(a, b) == Min(interval * a, interval * b)
  {
    if a <= b {
      assert interval * (b - a) >= 0.0;
    } else {
      assert interval * (a - b) >= 0.0;
    }
  }

  /** No delay at all exceeds the cap exactly when the cap is at least one. */
  lemma CapHolds(interval: real, cap: real)
    requires interval > 0.0
    ensures (forall n: nat :: Delay(interval, Settings(true, cap), n) <= interval * cap) <==> cap >= 1.0
  {
    if cap >= 1.0 {
      forall n: nat ensures Delay(interval, Settings(true, cap), n) <= interval * cap {
        if n > 0 {
          BackoffDoubles(interval, cap, n);
        }
      }
    } else {
      assert interval * (1.0 - cap) > 0.0;
      assert Delay(interval, Settings(true, cap), 0) == interval;
    }
  }

  ghost predicate Bounded(p: Poll, limit: real) {
    forall id :: id in p.live ==> p.live[id] <= p.interval * Max(1.0, limit)
  }

  lemma DelayBounded(interval: real, settings: Settings, failures: nat, limit: real)
    requires interval >= 0.0 && settings.cap <= limit
    ensures Delay(interval, settings, failures) <= interval * Max(1.0, limit)
  {
    var factor := if !settings.backoff || failures == 0 then 1.0 else Min(Power2(failures) as real, settings.cap);
    assert interval * (Max(1.0, limit) - factor) >= 0.0;
  }

  /** No timer is set for longer than `limit` allows, and none will be. */
  ghost predicate Patient(p: Poll, limit: real) {
    p.interval >= 0.0 && p.settings.cap <= limit && Bounded(p, limit)
  }

  lemma SchedulingKeepsPatience(p: Poll, limit: real)
    requires Patient(p, limit)
    ensures Patient(ScheduleNext(p), limit)
  {
    hide Delay, Max;
    DelayBounded(p.interval, p.settings, p.failures, limit);
  }

  lemma StepKeepsPatience(p: Poll, op: Op, limit: real)
    requires Patient(p, limit) && (op.SettingsChange? ==> op.settings.cap <= limit)
    ensures Patient(Apply(p, op), limit)
  {
    hide Max, ScheduleNext;
    if op.Settles? && p.running > 0 {
      var failures :=
        if !p.tickBackoff then p.failures else if op.result == Succeeded then 0 else p.failures + 1;
      SchedulingKeepsPatience(p.(inFlight := false, running := p.running - 1, failures := failures), limit);
    }
  }

  /** However the options change during the run, no timer is set for longer than the largest cap allows. */
  lemma {:induction false} DelaysBounded(interval: real, settings: Settings, hidden: bool, immediate: bool,
                                         ops: seq<Op>,
                                         limit: real)
    requires interval >= 0.0 && settings.cap <= limit
    requires forall i :: 0 <= i < |ops| && ops[i].SettingsChange? ==> ops[i].settings.cap <= limit
    ensures Patient(Run(Mount(interval, settings, hidden, immediate), ops), limit)
  {
    hide Apply, Patient, ScheduleNext;
    if ops == [] {
      MountPatient(interval, settings, hidden, immediate, limit);
    } else {
      var front := ops[..|ops| - 1];
      DelaysBounded(interval, settings, hidden, immediate, front, limit);
      StepKeepsPatience(Run(Mount(interval, settings, hidden, immediate), front), ops[|ops| - 1], limit);
    }
  }

  lemma MountPatient(interval: real, settings: Settings, hidden: bool, immediate: bool, limit: real)
    requires interval >= 0.0 && settings.cap <= limit
    ensures Patient(Mount(interval, settings, hidden, immediate), limit)
  {
    hide Max, ScheduleNext;
    SchedulingKeepsPatience(Mount(interval, settings, true, immediate).(hidden := false), limit);
  }

  // ------------------------------------------------------------- rounds

  /** The only timer fires and the callback it starts settles. */
  function Round(p: Poll, result: Result): Poll {
    match p.timeoutId
    case None => p
    case Some(id) => Apply(Apply(p, TimerFires(id)), Settles(result))
  }

  function Rounds(p: Poll, results: seq<Result>): Poll {
    if results == [] then p else Round(Rounds(p, results[..|results| - 1]), results[|results| - 1])
  }

  /** Polling that is visible and waits for its only timer, set for `delay`. */
  predicate Waiting(p: Poll, delay: real) {
    && p.mounted && !p.hidden && !p.inFlight && p.running == 0
    && p.timeoutId.Some? && p.timeoutId.value < p.nextId && p.live == map[p.timeoutId.value := delay]
  }

  /** How long it takes to the next round after the results so far, the newest last. */
  function Wait(interval: real, settings: Settings, results: seq<Result>): real {
    if !settings.backoff || results == [] || results[|results| - 1] == Succeeded then interval
    else if |results| > 1 && results[|results| - 2] != Succeeded then
      var before := Wait(interval, settings, results[..|results| - 1]);
      Min(2.0 * before, interval * settings.cap)
    else Min(2.0 * interval, interval * settings.cap)
  }

  /** A hook starts with its callback if it is to, else with its timer, and does nothing in a hidden document. */
  lemma MountTells(interval: real, settings: Settings, hidden: bool, immediate: bool)
    ensures var p := Mount(interval, settings, hidden, immediate);
            && p.mounted && p.hidden == hidden && (p.running == 1 <==> !hidden && immediate) && p.running <= 1
            && (!hidden && !immediate ==> Waiting(p, interval)) && (hidden || immediate ==> p.live == map[])
  {
  }

  lemma RoundTells(p: Poll, delay: real, result: Result)
    requires Waiting(p, delay)
    ensures var next := Round(p, result);
            && next.interval == p.interval && next.settings == p.settings
            && next.failures == (if !p.settings.backoff then p.failures
                                 else if result == Succeeded then 0 else p.failures + 1)
            && Waiting(next, Delay(p.interval, p.settings, next.failures))
  {
    hide Delay;
    var fired := Apply(p, TimerFires(p.timeoutId.value));
    assert fired.live == map[] && fired.running == 1;
  }

  /** Options that changed are read by the next round: whether it counts, and how long the wait after it is. */
  lemma ChangedOptionsCount(p: Poll, delay: real, settings: Settings, result: Result)
    requires Waiting(p, delay)
    ensures var next := Round(Apply(p, SettingsChange(settings)), result);
            && next.settings == settings
            && next.failures == (if !settings.backoff then p.failures
                                 else if result == Succeeded then 0 else p.failures + 1)
            && Waiting(next, Delay(p.interval, settings, next.failures))
  {
    hide Round, Delay;
    RoundTells(Apply(p, SettingsChange(settings)), delay, result);
  }

  /**
   * However the callbacks settle, the next one is due after the plain interval when the last succeeded, and otherwise
   * after twice the last wait, up to the cap. A callback that throws counts as one that fails.
   */
  lemma {:induction false} RoundsTell(interval: real, settings: Settings, results: seq<Result>)
    requires interval >= 0.0 && settings.cap >= 1.0
    ensures var p := Rounds(Mount(interval, settings, false, false), results);
            && p.interval == interval && p.settings == settings
            && Waiting(p, Wait(interval, settings, results))
            && Wait(interval, settings, results) == Delay(interval, settings, p.failures)
            && (settings.backoff ==> (p.failures == 0 <==> results == [] || results[|results| - 1] == Succeeded))
            && (!settings.backoff ==> p.failures == 0)
  {
    hide Mount, Round, Delay;
    if results == [] {
      MountTells(interval, settings, false, false);
      StartsFresh(interval, settings);
    } else {
      var front, last := results[..|results| - 1], results[|results| - 1];
      RoundsTell(interval, settings, front);
      var p := Rounds(Mount(interval, settings, false, false), front);
      RoundTells(p, Wait(interval, settings, front), last);
      DelaysFrom(interval, settings, p.failures);
      hide Waiting;
      assert front != [] ==> results[|results| - 2] == front[|front| - 1];
      var next := Round(p, last);
      assert Rounds(Mount(interval, settings, false, false), results) == next;
      assert Wait(interval, settings, results) == Delay(interval, settings, next.failures);
    }
  }

  lemma StartsFresh(interval: real, settings: Settings)
    ensures var p := Mount(interval, settings, false, false);
            p.interval == interval && p.settings == settings && p.failures == 0
    ensures Delay(interval, settings, 0) == interval
  {
  }

  lemma DelaysFrom(interval: real, settings: Settings, failures: nat)
    requires interval >= 0.0 && settings.cap >= 1.0
    ensures Delay(interval, settings, 0) == interval
    ensures !settings.backoff ==> Delay(interval, settings, failures) == interval
    ensures settings.backoff ==>
              Delay(interval, settings, failures + 1)
                == Min(2.0 * Delay(interval, settings, failures), interval * settings.cap)
  {
    if settings.backoff {
      if failures >= 1 {
        BackoffDoubles(interval, settings.cap, failures);
      } else {
        assert Power2(1) == 2;
        Scales(interval, 2.0, settings.cap);
      }
    }
  }

  // ------------------------------------------------------------- the hook as an object

  /** The closures of the effect share these variables; document, timers and callback belong to the browser. */
  class Poller {
    const interval: real
    var settings: Settings
    var hidden: bool
    var isMounted: bool
    var consecutiveFailures: nat
    var timeoutId: Option<nat>
    var inFlight: bool
    var tickBackoff: bool
    var live: map<nat, real>
    var nextId: nat
    var running: nat

    ghost function State(): Poll
      reads this
    {
      Poll(interval, settings, isMounted, hidden, consecutiveFailures, timeoutId, inFlight, tickBackoff, live, nextId,
           running)
    }

    /** One callback at most; a live timer exactly while polling goes on without one. */
    ghost predicate Valid()
      reads this
    {
      Serial(State()) && Paced(State())
    }

    constructor (interval: real, settings: Settings, hidden: bool, immediate: bool)
      ensures Valid() && State() == Mount(interval, settings, hidden, immediate)
    {
      MountPaced(interval, settings, hidden, immediate);
      this.interval, this.settings, this.hidden := interval, settings, hidden;
      isMounted, consecutiveFailures, timeoutId, inFlight := true, 0, None, false;
      tickBackoff, live, nextId, running := false, map[], 0, 0;
      new;
      if !hidden {
        if immediate {
          BeginTick();
        } else {
          SetNextTimer();
        }
      }
    }

    method GetDelay() returns (delay: real)
      ensures delay == Delay(interval, settings, consecutiveFailures)
    {
      if !settings.backoff || consecutiveFailures == 0 {
        return interval;
      }
      var multiplier := Min(Power2(consecutiveFailures) as real, settings.cap);
      return interval * multiplier;
    }

    method SetNextTimer()
      modifies this
      ensures State() == ScheduleNext(old(State()))
    {
      if !isMounted {
        return;
      }
      var delay := GetDelay();
      live := live[nextId := delay];
      timeoutId := Some(nextId);
      nextId := nextId + 1;
    }

    /**
     * The part of a tick before its callback is awaited. With callbacks in order and no timer left, it restores the
     * invariant: polling that goes on has a callback in flight.
     */
    method BeginTick()
      modifies this
      ensures State() == Tick(old(State()))
      ensures old(Serial(State())) && old(live).Keys == {} && (timeoutId.Some? ==> timeoutId.value < nextId) ==> Valid()
      ensures isMounted && !hidden ==> inFlight
    {
      if !isMounted || inFlight || hidden {
        return;
      }
      inFlight := true;
      tickBackoff := settings.backoff;
      running := running + 1;
    }

    /** The part of a tick after its callback has settled: while polling goes on, the next timer is set. */
    method EndTick(result: Result)
      requires Valid() && running > 0
      modifies this
      ensures Valid() && State() == Apply(old(State()), Settles(result)) && !inFlight
      ensures isMounted && !hidden ==>
                && timeoutId.Some? && live.Keys == {timeoutId.value}
                && live[timeoutId.value] == Delay(interval, settings, consecutiveFailures)
    {
      hide Delay;
      StepKeepsSerial(State(), Settles(result));
      StepKeepsPace(State(), Settles(result));
      running := running - 1;
      if result == Succeeded {
        if tickBackoff {
          consecutiveFailures := 0;
        }
      } else if tickBackoff {
        consecutiveFailures := consecutiveFailures + 1;
      }
      inFlight := false;
      if isMounted && !hidden {
        SetNextTimer();
      }
    }

    method ClearPending()
      modifies this
      ensures State() == ClearTimer(old(State()))
    {
      if timeoutId.Some? {
        live := live - {timeoutId.value};
        timeoutId := None;
      }
    }

    /** The timer that fires was the only one, and its tick starts the callback. */
    method OnTimer(id: nat)
      requires Valid() && id in live
      modifies this
      ensures Valid() && State() == Apply(old(State()), TimerFires(id))
      ensures isMounted && inFlight && live.Keys == {}
    {
      hide Delay;
      StepKeepsSerial(State(), TimerFires(id));
      StepKeepsPace(State(), TimerFires(id));
      live := live - {id};
      BeginTick();
    }

    /** The handler alone, after the document has changed. */
    method OnVisibilityChange()
      requires isMounted
      modifies this
      ensures State() == Apply(old(State()), VisibilityEvent)
    {
      if hidden {
        ClearPending();
      } else {
        consecutiveFailures := 0;
        if !inFlight {
          BeginTick();
        }
      }
    }

    /** The document changes its visibility and announces it: hiding leaves no timer, showing has a callback running. */
    method VisibilityChanges()
      requires Valid()
      modifies this
      ensures Valid() && State() == Apply(old(State()), Toggle) && hidden == !old(hidden)
      ensures hidden ==> live.Keys == {}
      ensures isMounted && !hidden ==> inFlight && consecutiveFailures == 0
    {
      hide Delay;
      StepKeepsSerial(State(), Toggle);
      StepKeepsPace(State(), Toggle);
      hidden := !hidden;
      if isMounted {
        OnVisibilityChange();
      }
    }

    /** After unmounting no timer is left, and none is set when the running callback settles. */
    method CleanUp()
      requires Valid()
      modifies this
      ensures Valid() && State() == Apply(old(State()), Unmount) && !isMounted && live.Keys == {}
    {
      hide Delay;
      StepKeepsSerial(State(), Unmount);
      StepKeepsPace(State(), Unmount);
      isMounted := false;
      ClearPending();
    }
  }
}
