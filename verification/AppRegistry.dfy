/** The registry of one wallet: how each writer changes it, when it saves, and when it tells its subscribers. */
module AppRegistry {
  import opened Options
  import opened AppNames
  import opened AppStatus
  import opened RegistryImport

  /** A field an update leaves alone, or the value it sets. */
  datatype Change<T> = Keep | To(value: T) {
    function Or(previous: T): T {
      if To? then value else previous
    }
  }

  datatype Patch = Patch(name: Change<string>, details: Change<Details>, connection: Change<Option<string>>,
                         readinessStale: Change<Option<bool>>, status: Change<Status>,
                         chainState: Change<Option<ChainState>>, provisionState: Change<Option<ProvisionState>>,
                         customDomains: Change<Option<seq<CustomDomain>>>)

  datatype DomainObservation = DomainObservation(seen: seq<CustomDomain>, expected: Option<seq<CustomDomain>>)

  datatype Op =
    | Add(leaseUuid: string, patch: Patch)
    | Update(leaseUuid: string, patch: Patch)
    | Remove(leaseUuid: string)
    | ChainTick(live: map<string, ChainState>, expected: Option<map<string, Option<ChainState>>>)
    | DomainTick(observations: map<string, DomainObservation>)
    | Discover(leases: seq<Lease>, payloadless: set<string>, locale: Locale)

  // ------------------------------------------------------------- single entries

  function Merged(e: Entry, p: Patch): Entry {
    Entry(p.name.Or(e.name), e.leaseUuid, p.details.Or(e.details), p.connection.Or(e.connection),
          p.readinessStale.Or(e.readinessStale), p.status.Or(e.status), p.chainState.Or(e.chainState),
          p.provisionState.Or(e.provisionState), p.customDomains.Or(e.customDomains))
  }

  function Blank(leaseUuid: string): Entry {
    Entry("", leaseUuid, Details("", "", "", 0, None, None, None), None, None, Stopped, None, None, None)
  }

  predicate Terminal(e: Entry) {
    e.status == Stopped || e.status == Failed
  }

  /** What a chain tick does to an entry: nothing when the entry is newer than the snapshot it was compared with. */
  function TickEntry(e: Entry, live: map<string, ChainState>, expected: Option<map<string,
                     Option<ChainState>>>): Entry {
    if expected.Some? && (e.leaseUuid !in expected.value || e.chainState != expected.value[e.leaseUuid]) then e
    else Ticked(e, if e.leaseUuid in live then live[e.leaseUuid] else Absent)
  }

  function DomainsOf(domains: Option<seq<CustomDomain>>): seq<CustomDomain> {
    domains.GetOr([])
  }

  function DomainEntry(e: Entry, observations: map<string, DomainObservation>): Entry {
    if e.leaseUuid !in observations then e
    else
      var o := observations[e.leaseUuid];
      if DomainsOf(e.customDomains) != DomainsOf(o.expected) || DomainsOf(e.customDomains) == o.seen then e
      else e.(customDomains := Some(o.seen))
  }

  // ------------------------------------------------------------- the list

  function IndexOf(apps: seq<Entry>, leaseUuid: string): (i: nat)
    ensures i <= |apps|
    ensures i < |apps| ==> apps[i].leaseUuid == leaseUuid
    ensures forall j :: 0 <= j < i ==> apps[j].leaseUuid != leaseUuid
  {
    if apps == [] || apps[0].leaseUuid == leaseUuid then 0 else 1 + IndexOf(apps[1..], leaseUuid)
  }

  /** The apps an addition leaves in place: other leases, and not the finished ones whose name is taken over. */
  function Others(apps: seq<Entry>, stored: Entry): (r: seq<Entry>)
    ensures forall e ::
      e in r <==> e in apps && e.leaseUuid != stored.leaseUuid && (e.name != stored.name || !Terminal(e))
  {
    if apps == [] then []
    else
      var last := apps[|apps| - 1];
      Others(apps[..|apps| - 1], stored)
      + (if last.leaseUuid != stored.leaseUuid && (last.name != stored.name || !Terminal(last)) then [last] else [])
  }

  function Without(apps: seq<Entry>, leaseUuid: string): (r: seq<Entry>)
    ensures forall e :: e in r <==> e in apps && e.leaseUuid != leaseUuid
  {
    if apps == [] then []
    else
      var last := apps[|apps| - 1];
      Without(apps[..|apps| - 1], leaseUuid) + (if last.leaseUuid != leaseUuid then [last] else [])
  }

  function StoredBy(apps: seq<Entry>, leaseUuid: string, p: Patch): (e: Entry)
    ensures e.leaseUuid == leaseUuid
  {
    var i := IndexOf(apps, leaseUuid);
    Derived(Merged(if i < |apps| then apps[i] else Blank(leaseUuid), p))
  }

  function Apply(apps: seq<Entry>, op: Op): seq<Entry> {
    match op
    case Add(leaseUuid, p) => Others(apps, StoredBy(apps, leaseUuid, p)) + [StoredBy(apps, leaseUuid, p)]
    case Update(leaseUuid, p) =>
      var i := IndexOf(apps, leaseUuid);
      if i == |apps| then apps else apps[i := Derived(Merged(apps[i], p))]
    case Remove(leaseUuid) => Without(apps, leaseUuid)
    case ChainTick(live, expected) => seq(|apps|, i requires 0 <= i < |apps| => TickEntry(apps[i], live, expected))
    case DomainTick(observations) => seq(|apps|, i requires 0 <= i < |apps| => DomainEntry(apps[i], observations))
    case Discover(leases, payloadless, locale) => Import(apps, leases, payloadless, locale)
  }

  function Run(apps: seq<Entry>, ops: seq<Op>): seq<Entry> {
    if ops == [] then apps else Apply(Run(apps, ops[..|ops| - 1]), ops[|ops| - 1])
  }

  // ------------------------------------------------------------- what each writer writes

  predicate Takes<T(==)>(change: Change<T>, before: T, after: T) {
    match change
    case Keep => after == before
    case To(value) => after == value
  }

  /** The fields a patch names have its values, the others are as they were, and the status follows from them. */
  ghost predicate Patched(before: Entry, after: Entry, p: Patch) {
    && after.leaseUuid == before.leaseUuid
    && Takes(p.name, before.name, after.name) && Takes(p.details, before.details, after.details)
    && Takes(p.connection, before.connection, after.connection)
    && Takes(p.readinessStale, before.readinessStale, after.readinessStale)
    && Takes(p.chainState, before.chainState, after.chainState)
    && Takes(p.provisionState, before.provisionState, after.provisionState)
    && Takes(p.customDomains, before.customDomains, after.customDomains)
    && exists given :: Takes(p.status, before.status, given)
                       && after.status == DeriveStatus(after.chainState, after.provisionState, given)
  }

  lemma MergedIsPatched(e: Entry, p: Patch)
    ensures Patched(e, Derived(Merged(e, p)), p)
  {
    hide DeriveStatus;
    assert Takes(p.status, e.status, Merged(e, p).status);
  }

  /** An update patches the entry of its lease and no other. */
  lemma UpdateTells(apps: seq<Entry>, leaseUuid: string, p: Patch, k: nat)
    requires Consistent(apps) && k < |apps|
    ensures var after := Apply(apps, Update(leaseUuid, p));
            && |after| == |apps|
            && if apps[k].leaseUuid == leaseUuid then Patched(apps[k], after[k], p) else after[k] == apps[k]
  {
    hide DeriveStatus, Patched;
    MergedIsPatched(apps[k], p);
  }

  predicate Unknown(e: Entry) {
    e.chainState == None && e.provisionState == None && e.connection == None && e.customDomains == None
  }

  /** An addition puts its entry last, patched onto what was known of the lease, with its observations kept. */
  lemma AddTells(apps: seq<Entry>, leaseUuid: string, p: Patch)
    ensures var after := Apply(apps, Add(leaseUuid, p));
            && after != [] && after[|after| - 1].leaseUuid == leaseUuid
            && if exists k :: 0 <= k < |apps| && apps[k].leaseUuid == leaseUuid then
                 exists k :: 0 <= k < |apps| && apps[k].leaseUuid == leaseUuid
                             && Patched(apps[k], after[|after| - 1], p)
               else
                 exists blank: Entry :: Patched(blank, after[|after| - 1], p) && Unknown(blank)
  {
    hide DeriveStatus, Patched;
    var i := IndexOf(apps, leaseUuid);
    var before := if i < |apps| then apps[i] else Blank(leaseUuid);
    MergedIsPatched(before, p);
    assert Patched(before, StoredBy(apps, leaseUuid, p), p) && (i == |apps| ==> Unknown(before));
    assert i < |apps| ==> apps[i].leaseUuid == leaseUuid;
  }

  /** The entries an addition takes out are those of its lease and the finished ones under its name. */
  lemma AddLeaves(apps: seq<Entry>, leaseUuid: string, p: Patch, e: Entry)
    requires e in apps && e.leaseUuid != leaseUuid
    ensures var after := Apply(apps, Add(leaseUuid, p));
            e in after <==> e.status == Deploying || e.status == Running || e.name != after[|after| - 1].name
  {
    hide DeriveStatus, Merged;
    var stored := StoredBy(apps, leaseUuid, p);
    assert e in Others(apps, stored) + [stored] <==> e in Others(apps, stored);
  }

  /** A name is accepted when it is well shaped and no other lease deploys or runs an app under it. */
  lemma NameAcceptedTells(apps: seq<Entry>, name: string, excludeLease: string)
    ensures NameAccepted(apps, name, excludeLease) <==>
              && ValidShape(name)
              && forall e :: e in apps && e.name == name && e.status in {Deploying, Running} ==>
                   e.leaseUuid == excludeLease
  {
    hide ValidShape;
    if NameAccepted(apps, name, excludeLease) {
      forall e | e in apps && e.name == name && e.status in {Deploying, Running} ensures e.leaseUuid == excludeLease {
        var i :| 0 <= i < |apps| && apps[i] == e;
      }
    } else if ValidShape(name) {
      var i :| 0 <= i < |apps| && apps[i].name == name && apps[i].leaseUuid != excludeLease && !Terminal(apps[i]);
      assert apps[i] in apps && apps[i].status in {Deploying, Running};
    }
  }

  /** A chain tick writes what it saw of a lease, and the status that follows, unless the entry is newer than that. */
  lemma TickTells(apps: seq<Entry>, live: map<string, ChainState>, expected: Option<map<string, Option<ChainState>>>,
                  k: nat)
    requires k < |apps|
    ensures var after := Apply(apps, ChainTick(live, expected));
            var (e, id) := (apps[k], apps[k].leaseUuid);
            && |after| == |apps|
            && if expected.Some? && (id in expected.value ==> expected.value[id] != e.chainState) then after[k] == e
               else
                 && after[k].chainState == Some(if id in live then live[id] else Absent)
                 && after[k].status == DeriveStatus(after[k].chainState, e.provisionState, e.status)
                 && after[k] == e.(chainState := after[k].chainState, status := after[k].status)
  {
    hide DeriveStatus;
  }

  /** A domain tick writes the domains seen on a lease exactly when the local ones are those it started from. */
  lemma DomainTickTells(apps: seq<Entry>, observations: map<string, DomainObservation>, k: nat)
    requires k < |apps|
    ensures var after := Apply(apps, DomainTick(observations));
            var (e, id) := (apps[k], apps[k].leaseUuid);
            && |after| == |apps|
            && after[k] == e.(customDomains := after[k].customDomains)
            && (after[k] != e ==> id in observations && after[k].customDomains == Some(observations[id].seen))
            && (id in observations && e.customDomains.GetOr([]) == observations[id].expected.GetOr([]) ==>
                  after[k].customDomains.GetOr([]) == observations[id].seen)
            && (id in observations && e.customDomains.GetOr([]) != observations[id].expected.GetOr([]) ==>
                  after[k] == e)
  {
  }

  /** The entries at the given places, in order. */
  ghost predicate KeptAt(apps: seq<Entry>, kept: seq<Entry>, at: seq<nat>) {
    && |at| == |kept| && (forall j, k :: 0 <= j < k < |at| ==> at[j] < at[k])
    && forall j :: 0 <= j < |at| ==> at[j] < |apps| && kept[j] == apps[at[j]]
  }

  lemma KeptAtGrows(apps: seq<Entry>, kept: seq<Entry>, at: seq<nat>, e: Entry)
    requires KeptAt(apps, kept, at)
    ensures KeptAt(apps + [e], kept, at) && KeptAt(apps + [e], kept + [e], at + [|apps|])
  {
  }

  /** A removal keeps the others in their order. */
  lemma {:induction false} RemovalKeepsOrder(apps: seq<Entry>, leaseUuid: string) returns (at: seq<nat>)
    ensures KeptAt(apps, Without(apps, leaseUuid), at)
  {
    at := [];
    if apps != [] {
      var front, last := apps[..|apps| - 1], apps[|apps| - 1];
      at := RemovalKeepsOrder(front, leaseUuid);
      KeptAtGrows(front, Without(front, leaseUuid), at, last);
      hide KeptAt;
      assert apps == front + [last];
      if last.leaseUuid != leaseUuid {
        at := at + [|front|];
      } else {
        assert Without(apps, leaseUuid) == Without(front, leaseUuid);
      }
    }
  }

  /** So does an addition. */
  lemma {:induction false} AdditionKeepsOrder(apps: seq<Entry>, stored: Entry) returns (at: seq<nat>)
    ensures KeptAt(apps, Others(apps, stored), at)
  {
    at := [];
    if apps != [] {
      var front, last := apps[..|apps| - 1], apps[|apps| - 1];
      at := AdditionKeepsOrder(front, stored);
      KeptAtGrows(front, Others(front, stored), at, last);
      hide KeptAt;
      assert apps == front + [last];
      if last.leaseUuid != stored.leaseUuid && (last.name != stored.name || !Terminal(last)) {
        at := at + [|front|];
      } else {
        assert Others(apps, stored) == Others(front, stored);
      }
    }
  }

  // ------------------------------------------------------------- every writer keeps the registry consistent

  ghost predicate DistinctLeaseIds(apps: seq<Entry>) {
    forall i, j :: 0 <= i < j < |apps| ==> apps[i].leaseUuid != apps[j].leaseUuid
  }

  lemma {:induction false} OthersDistinct(apps: seq<Entry>, stored: Entry)
    requires DistinctLeaseIds(apps)
    ensures DistinctLeaseIds(Others(apps, stored))
  {
    if apps != [] {
      var front, last := apps[..|apps| - 1], apps[|apps| - 1];
      OthersDistinct(front, stored);
      forall i | 0 <= i < |Others(front, stored)| ensures Others(front, stored)[i].leaseUuid != last.leaseUuid {
        assert Others(front, stored)[i] in front;
      }
    }
  }

  lemma {:induction false} WithoutDistinct(apps: seq<Entry>, leaseUuid: string)
    requires DistinctLeaseIds(apps)
    ensures DistinctLeaseIds(Without(apps, leaseUuid))
  {
    if apps != [] {
      var front, last := apps[..|apps| - 1], apps[|apps| - 1];
      WithoutDistinct(front, leaseUuid);
      forall i | 0 <= i < |Without(front, leaseUuid)| ensures Without(front, leaseUuid)[i].leaseUuid != last.leaseUuid {
        assert Without(front, leaseUuid)[i] in front;
      }
    }
  }

  /** A list of consistent entries with distinct lease ids is consistent. */
  lemma FromMembers(apps: seq<Entry>, source: seq<Entry>)
    requires DistinctLeaseIds(apps) && Consistent(source)
    requires forall i :: 0 <= i < |apps| ==> apps[i] in source || Derived(apps[i]) == apps[i]
    ensures Consistent(apps)
  {
    hide DeriveStatus;
    forall i | 0 <= i < |apps| ensures Derived(apps[i]) == apps[i] {
      if apps[i] in source {
        var j :| 0 <= j < |source| && source[j] == apps[i];
      }
    }
  }

  lemma AddKeepsConsistent(apps: seq<Entry>, leaseUuid: string, p: Patch)
    requires Consistent(apps)
    ensures Consistent(Apply(apps, Add(leaseUuid, p)))
  {
    hide DeriveStatus, Merged;
    var stored := StoredBy(apps, leaseUuid, p);
    var i := IndexOf(apps, leaseUuid);
    DeriveSettles(Merged(if i < |apps| then apps[i] else Blank(leaseUuid), p));
    OthersDistinct(apps, stored);
    var others := Others(apps, stored);
    forall k | 0 <= k < |others| ensures others[k].leaseUuid != leaseUuid && others[k] in apps {
      assert others[k] in others;
    }
    FromMembers(others + [stored], apps);
  }

  lemma UpdateKeepsConsistent(apps: seq<Entry>, leaseUuid: string, p: Patch)
    requires Consistent(apps)
    ensures Consistent(Apply(apps, Update(leaseUuid, p)))
  {
    hide DeriveStatus;
    var i := IndexOf(apps, leaseUuid);
    if i < |apps| {
      DeriveSettles(Merged(apps[i], p));
    }
  }

  lemma TickKeepsConsistent(apps: seq<Entry>, live: map<string, ChainState>, expected: Option<map<string,
                            Option<ChainState>>>)
    requires Consistent(apps)
    ensures Consistent(Apply(apps, ChainTick(live, expected)))
  {
    hide DeriveStatus;
    forall i | 0 <= i < |apps|
      ensures var e := TickEntry(apps[i], live, expected); Derived(e) == e && e.leaseUuid == apps[i].leaseUuid
    {
      DeriveSettles(apps[i].(chainState := SeenState(live, apps[i].leaseUuid)));
    }
  }

  lemma ApplyKeepsConsistent(apps: seq<Entry>, op: Op)
    requires Consistent(apps)
    ensures Consistent(Apply(apps, op))
  {
    hide DeriveStatus, TickEntry, Import;
    match op {
      case Add(leaseUuid, p) => AddKeepsConsistent(apps, leaseUuid, p);
      case Update(leaseUuid, p) => UpdateKeepsConsistent(apps, leaseUuid, p);
      case Remove(leaseUuid) =>
        WithoutDistinct(apps, leaseUuid);
        FromMembers(Without(apps, leaseUuid), apps);
      case ChainTick(live, expected) => TickKeepsConsistent(apps, live, expected);
      case DomainTick(observations) =>
      case Discover(leases, payloadless, locale) => ImportKeepsConsistent(apps, leases, payloadless, locale);
    }
  }

  /** In every registry reachable from empty, lease ids are distinct and every status is the derived one. */
  lemma {:induction false} RunKeepsConsistent(apps: seq<Entry>, ops: seq<Op>)
    requires Consistent(apps)
    ensures Consistent(Run(apps, ops))
  {
    hide Apply, DeriveStatus;
    if ops != [] {
      RunKeepsConsistent(apps, ops[..|ops| - 1]);
      ApplyKeepsConsistent(Run(apps, ops[..|ops| - 1]), ops[|ops| - 1]);
    }
  }

  // ------------------------------------------------------------- chain ticks over a whole registry

  /**
   * Over any run of chain ticks every entry keeps its place and everything but its chain state and status;
   * a provider's failure stays a failure, and an app without a verdict never becomes running.
   */
  lemma {:induction false} TicksKeepVerdicts(apps: seq<Entry>, ops: seq<Op>, i: nat)
    requires Consistent(apps) && i < |apps| && forall k :: 0 <= k < |ops| ==> ops[k].ChainTick?
    ensures |Run(apps, ops)| == |apps|
    ensures var before, now := apps[i], Run(apps, ops)[i];
            && now == before.(chainState := now.chainState, status := now.status)
            && (before.provisionState == Some(ProvisionFailed) ==> now.status == Failed)
            && (before.provisionState == Some(Unconfirmed) ==> now.status in {Deploying, Stopped})
  {
    if ops != [] {
      var front := ops[..|ops| - 1];
      TicksKeepVerdicts(apps, front, i);
      hide Merged;
    } else {
      assert Derived(apps[i]) == apps[i];
    }
  }

  /** What a snapshot of the chain says of a lease. */
  function SeenState(live: map<string, ChainState>, leaseUuid: string): Option<ChainState> {
    Some(if leaseUuid in live then live[leaseUuid] else Absent)
  }

  /**
   * Of two ticks that were both compared with the registry as it was before either, the first to change an entry's
   * chain state decides the entry; the other decides the rest.
   */
  lemma FirstTickWins(apps: seq<Entry>, first: map<string, ChainState>, second: map<string, ChainState>,
                      expected: map<string, Option<ChainState>>, i: nat)
    requires Consistent(apps) && i < |apps|
    requires forall k :: 0 <= k < |apps| ==>
      apps[k].leaseUuid in expected && expected[apps[k].leaseUuid] == apps[k].chainState
    ensures var after := Apply(Apply(apps, ChainTick(first, Some(expected))), ChainTick(second, Some(expected)));
            var deciding := if SeenState(first, apps[i].leaseUuid) != apps[i].chainState then first else second;
            |after| == |apps| && after[i] == Ticked(apps[i], SeenState(deciding, apps[i].leaseUuid).value)
  {
    hide DeriveStatus;
    assert Derived(apps[i]) == apps[i];
    var between := Apply(apps, ChainTick(first, Some(expected)));
    assert between[i] == Ticked(apps[i], SeenState(first, apps[i].leaseUuid).value);
    if SeenState(first, apps[i].leaseUuid) == apps[i].chainState {
      assert apps[i].(chainState := apps[i].chainState) == apps[i];
      assert between[i] == apps[i];
    }
  }

  /** Seeing the same chain twice in a row changes nothing the second time. */
  lemma TickIdempotent(apps: seq<Entry>, live: map<string, ChainState>)
    ensures var once := Apply(apps, ChainTick(live, None)); Apply(once, ChainTick(live, None)) == once
  {
    var once := Apply(apps, ChainTick(live, None));
    forall i | 0 <= i < |apps| ensures TickEntry(once[i], live, None) == once[i] {
      TwiceTicked(apps[i], if apps[i].leaseUuid in live then live[apps[i].leaseUuid] else Absent);
    }
  }

  lemma TwiceTicked(e: Entry, seen: ChainState)
    ensures Ticked(Ticked(e, seen), seen) == Ticked(e, seen)
  {
    var once := Ticked(e, seen);
    assert once.(chainState := Some(seen)) == once;
  }

  // ------------------------------------------------------------- names

  ghost predicate DistinctNames(apps: seq<Entry>) {
    forall i, j :: 0 <= i < j < |apps| ==> apps[i].name != apps[j].name
  }

  /** The name check of a deploy: well shaped and not held by a live app of another lease. */
  predicate NameAccepted(apps: seq<Entry>, name: string, excludeLease: string) {
    && ValidShape(name)
    && forall i :: 0 <= i < |apps| ==>
         !(apps[i].name == name && apps[i].leaseUuid != excludeLease && !Terminal(apps[i]))
  }

  /** Additions under an accepted name, and updates that do not rename. */
  predicate KeepsNames(apps: seq<Entry>, op: Op) {
    match op
    case Add(leaseUuid, p) => p.name.To? && NameAccepted(apps, p.name.value, leaseUuid)
    case Update(_, p) => p.name.Keep?
    case _ => true
  }

  ghost predicate AllKeepNames(apps: seq<Entry>, ops: seq<Op>) {
    ops == [] || (AllKeepNames(apps, ops[..|ops| - 1]) && KeepsNames(Run(apps, ops[..|ops| - 1]), ops[|ops| - 1]))
  }

  lemma {:induction false} OthersNames(apps: seq<Entry>, stored: Entry)
    requires DistinctNames(apps)
    ensures DistinctNames(Others(apps, stored))
  {
    hide Terminal;
    if apps != [] {
      var front, last := apps[..|apps| - 1], apps[|apps| - 1];
      OthersNames(front, stored);
      NotAmong(front, Others(front, stored), last.name);
    }
  }

  lemma {:induction false} WithoutNames(apps: seq<Entry>, leaseUuid: string)
    requires DistinctNames(apps)
    ensures DistinctNames(Without(apps, leaseUuid))
  {
    if apps != [] {
      var front, last := apps[..|apps| - 1], apps[|apps| - 1];
      WithoutNames(front, leaseUuid);
      NotAmong(front, Without(front, leaseUuid), last.name);
    }
  }

  lemma {:induction false} KeptNames(apps: seq<Entry>, payloadless: set<string>)
    requires DistinctNames(apps)
    ensures DistinctNames(KeepApps(apps, payloadless))
  {
    if apps != [] {
      var front, last := apps[..|apps| - 1], apps[|apps| - 1];
      KeptNames(front, payloadless);
      NotAmong(front, KeepApps(front, payloadless), last.name);
    }
  }

  lemma NotAmong(apps: seq<Entry>, part: seq<Entry>, name: string)
    requires forall i :: 0 <= i < |apps| ==> apps[i].name != name
    requires forall e :: e in part ==> e in apps
    ensures forall i :: 0 <= i < |part| ==> part[i].name != name
  {
    forall i | 0 <= i < |part| ensures part[i].name != name {
      assert part[i] in part;
    }
  }

  lemma ApplyKeepsNames(apps: seq<Entry>, op: Op)
    requires DistinctNames(apps) && KeepsNames(apps, op)
    ensures DistinctNames(Apply(apps, op))
  {
    hide DeriveStatus, TickEntry, ImportEach, ValidShape;
    match op {
      case Add(leaseUuid, p) =>
        var stored := StoredBy(apps, leaseUuid, p);
        OthersNames(apps, stored);
        var others := Others(apps, stored);
        forall k | 0 <= k < |others| ensures others[k].name != stored.name {
          assert others[k] in others;
          var i :| 0 <= i < |apps| && apps[i] == others[k];
        }
      case Update(leaseUuid, p) =>
      case Remove(leaseUuid) =>
        WithoutNames(apps, leaseUuid);
      case ChainTick(live, expected) =>
        TickKeepsNames(apps, live, expected);
      case DomainTick(observations) =>
      case Discover(leases, payloadless, locale) =>
        KeptNames(apps, payloadless);
        var kept := KeepApps(apps, payloadless);
        ImportsEach(kept, SortLeases(leases, locale.leq), payloadless, locale.lower);
        var after := Import(apps, leases, payloadless, locale);
        assert forall i :: 0 <= i < |kept| ==> after[i] == kept[i];
    }
  }

  lemma TickKeepsNames(apps: seq<Entry>, live: map<string, ChainState>, expected: Option<map<string,
                       Option<ChainState>>>)
    requires DistinctNames(apps)
    ensures DistinctNames(Apply(apps, ChainTick(live, expected)))
  {
    hide DeriveStatus;
    assert forall i :: 0 <= i < |apps| ==> TickEntry(apps[i], live, expected).name == apps[i].name;
  }

  /** With accepted names only, no two entries of a registry ever share a name, running or not. */
  lemma {:induction false} NamesStayDistinct(apps: seq<Entry>, ops: seq<Op>)
    requires DistinctNames(apps) && AllKeepNames(apps, ops)
    ensures DistinctNames(Run(apps, ops))
  {
    hide Apply, KeepsNames;
    if ops != [] {
      NamesStayDistinct(apps, ops[..|ops| - 1]);
      ApplyKeepsNames(Run(apps, ops[..|ops| - 1]), ops[|ops| - 1]);
    }
  }
}
