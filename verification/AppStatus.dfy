/** The apps of a wallet and the status that is derived from what the chain and the provider were seen to say. */
module AppStatus {
  import opened Options

  datatype Status = Deploying | Running | Stopped | Failed

  datatype ChainState = Active | Pending | Absent

  datatype ProvisionState = Confirmed | Unconfirmed | ProvisionFailed

  datatype CustomDomain = CustomDomain(serviceName: string, customDomain: string)

  /** The stored fields that no rule of the registry looks at one by one. */
  datatype Details = Details(size: string, providerUuid: string, providerUrl: string, createdAt: int,
                             url: Option<string>, connectionStale: Option<bool>, manifest: Option<string>)

  /** `None` for an observation means it was never made. */
  datatype Entry = Entry(name: string, leaseUuid: string, details: Details, connection: Option<string>,
                         readinessStale: Option<bool>, status: Status, chainState: Option<ChainState>,
                         provisionState: Option<ProvisionState>, customDomains: Option<seq<CustomDomain>>)

  /** The status summary, by authority of the observation and not by how recent it is. */
  function DeriveStatus(chainState: Option<ChainState>, provisionState: Option<ProvisionState>,
                        status: Status): Status {
    if provisionState == Some(ProvisionFailed) then Failed
    else if chainState == Some(Absent) then
      if provisionState == None && status == Failed then Failed else Stopped
    else if provisionState == Some(Unconfirmed) then Deploying
    else if provisionState == Some(Confirmed) then
      if chainState == Some(Pending) then Deploying else Running
    else if chainState == Some(Active) then Running
    else if chainState == Some(Pending) then Deploying
    else status
  }

  function Derived(e: Entry): Entry {
    e.(status := DeriveStatus(e.chainState, e.provisionState, e.status))
  }

  /** Lease ids are distinct and every stored status is the one its own entry derives. */
  ghost predicate Consistent(apps: seq<Entry>) {
    && (forall i, j :: 0 <= i < j < |apps| ==> apps[i].leaseUuid != apps[j].leaseUuid)
    && (forall i :: 0 <= i < |apps| ==> Derived(apps[i]) == apps[i])
  }

  /** The chain or, where it was never asked, the stored status speaks for the app when no provider does. */
  predicate Alone(e: Entry, seen: ChainState, stored: Status) {
    e.provisionState == None && if e.chainState == None then e.status == stored else e.chainState == Some(seen)
  }

  /** When an app counts as failed, stopped, running or deploying, each told by itself. */
  lemma StatusTells(e: Entry)
    ensures Derived(e).status == Failed <==>
              || e.provisionState == Some(ProvisionFailed)
              || (e.provisionState == None && e.status == Failed
                  && (e.chainState == None || e.chainState == Some(Absent)))
    ensures Derived(e).status == Stopped <==>
              || (e.chainState == Some(Absent) && e.provisionState.Some? && e.provisionState != Some(ProvisionFailed))
              || (Alone(e, Absent, Stopped) && e.status != Failed)
    ensures Derived(e).status == Running <==>
              || (e.provisionState == Some(Confirmed) && (e.chainState == None || e.chainState == Some(Active)))
              || Alone(e, Active, Running)
    ensures Derived(e).status == Deploying <==>
              || (e.provisionState == Some(Confirmed) && e.chainState == Some(Pending))
              || (e.provisionState == Some(Unconfirmed) && e.chainState != Some(Absent))
              || Alone(e, Pending, Deploying)
  {
    assert e.chainState.Some? ==>
             e.chainState.value.Active? || e.chainState.value.Pending? || e.chainState.value.Absent?;
    match e.provisionState
    case Some(Confirmed) =>
    case Some(Unconfirmed) =>
    case Some(ProvisionFailed) =>
    case None =>
  }

  /** Deriving a derived status changes nothing, whatever the status was before. */
  lemma DeriveSettles(e: Entry)
    ensures Derived(Derived(e)) == Derived(e)
  {
  }

  // ------------------------------------------------------------- one chain tick on one entry

  /** What an observation of the chain alone does to an entry. */
  function Ticked(e: Entry, seen: ChainState): Entry {
    Derived(e.(chainState := Some(seen)))
  }

  function TickedAll(e: Entry, seen: seq<ChainState>): Entry {
    if seen == [] then e else Ticked(TickedAll(e, seen[..|seen| - 1]), seen[|seen| - 1])
  }

  /** No run of chain ticks turns a provider's verdict of failure, or the lack of a verdict, into a running app. */
  lemma {:induction false} TicksRespectProvider(e: Entry, seen: seq<ChainState>)
    requires Derived(e) == e
    ensures var now := TickedAll(e, seen);
            && now == e.(chainState := now.chainState, status := now.status) && Derived(now) == now
            && (e.provisionState == Some(ProvisionFailed) ==> now.status == Failed)
            && (e.provisionState == Some(Unconfirmed) ==> now.status in {Deploying, Stopped})
  {
    if seen != [] {
      TicksRespectProvider(e, seen[..|seen| - 1]);
    }
  }

  /** Once the provider was observed, only the last tick matters. */
  lemma {:induction false} LastTickDecides(e: Entry, seen: seq<ChainState>)
    requires Derived(e) == e && e.provisionState.Some? && seen != []
    ensures TickedAll(e, seen) == Ticked(e, seen[|seen| - 1])
  {
    TicksRespectProvider(e, seen[..|seen| - 1]);
    TickForgets(e, TickedAll(e, seen[..|seen| - 1]), seen[|seen| - 1]);
  }

  /** A tick on an entry whose provider was observed ignores the earlier chain state and status. */
  lemma TickForgets(e: Entry, other: Entry, seen: ChainState)
    requires e.provisionState.Some? && other == e.(chainState := other.chainState, status := other.status)
    ensures Ticked(other, seen) == Ticked(e, seen)
  {
    var a, b := Ticked(e, seen), Ticked(other, seen);
    assert a.status == b.status && a.chainState == b.chainState;
    assert a == Entry(e.name, e.leaseUuid, e.details, e.connection, e.readinessStale, a.status, Some(seen),
                      e.provisionState, e.customDomains);
  }

  /** Without a provider observation the order matters: an old failure survives absence, but not a lease seen active. */
  lemma LegacyFailureForgotten(e: Entry)
    requires e.provisionState == None && e.status == Failed && e.chainState == None
    ensures TickedAll(e, [Absent]).status == Failed
    ensures TickedAll(e, [Active, Absent]).status == Stopped
  {
    assert [Active, Absent][..1] == [Active];
    assert TickedAll(e, [Active][..0]) == e && TickedAll(e, [Absent][..0]) == e;
    assert TickedAll(e, [Active]) == Ticked(e, Active);
  }

  predicate AbsentThroughout(seen: seq<ChainState>) {
    forall i :: 0 <= i < |seen| ==> seen[i] == Absent
  }

  /** Without a provider observation an app is failed after a run of ticks exactly when it was and all saw no lease. */
  lemma {:induction false} LegacyFailureSurvives(e: Entry, seen: seq<ChainState>)
    requires Derived(e) == e && e.provisionState == None
    ensures var now := TickedAll(e, seen);
            && now == e.(chainState := now.chainState, status := now.status)
            && (now.status == Failed <==> e.status == Failed && AbsentThroughout(seen))
  {
    if seen != [] {
      var front := seen[..|seen| - 1];
      LegacyFailureSurvives(e, front);
      assert seen == front + [seen[|seen| - 1]];
    }
  }

  /**
   * Without a provider observation the last tick alone decides exactly when there is no old failure, when the lease is
   * seen at the end, or when it was absent throughout.
   */
  lemma LegacyLastTickDecides(e: Entry, seen: seq<ChainState>)
    requires Derived(e) == e && e.provisionState == None && seen != []
    ensures TickedAll(e, seen) == Ticked(e, seen[|seen| - 1])
       <==> e.status != Failed || seen[|seen| - 1] != Absent || AbsentThroughout(seen)
  {
    LegacyFailureSurvives(e, seen);
    LegacyFailureSurvives(e, seen[..|seen| - 1]);
    var now, alone := TickedAll(e, seen), Ticked(e, seen[|seen| - 1]);
    assert now == Ticked(TickedAll(e, seen[..|seen| - 1]), seen[|seen| - 1]) by { TickedLast(e, seen); }
    assert alone == e.(chainState := alone.chainState, status := alone.status);
    assert alone.chainState == now.chainState;
    assert now == alone <==> now.status == alone.status;
    var before := TickedAll(e, seen[..|seen| - 1]);
    assert now.status == DeriveStatus(now.chainState, None, before.status);
    assert alone.status == DeriveStatus(now.chainState, None, e.status);
    assert e.status != Failed ==> before.status != Failed;
    if seen[|seen| - 1] != Absent {
      assert now.status == alone.status;
    }
  }

  lemma TickedLast(e: Entry, seen: seq<ChainState>)
    requires seen != []
    ensures TickedAll(e, seen) == Ticked(TickedAll(e, seen[..|seen| - 1]), seen[|seen| - 1])
  {
  }
}
