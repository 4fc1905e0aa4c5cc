/** Attribution of a maintenance command to one provider release, from release history alone. */
module MaintenanceOutcome {
  import opened Options

  const MAX_SAFE_INTEGER := 0x1F_FFFF_FFFF_FFFF

  datatype Status = Deploying | Active | Failed | Other(name: string)

  /** `failing` tells whether the row carries a failure description. */
  datatype Release = Release(version: int, status: Status, failing: bool)

  datatype Provision = Provision(ready: bool, failing: bool)

  datatype CaptureError = AmbiguousHistory | CommandInProgress(version: int)

  datatype Reason =
    | NoOriginalHistory | AmbiguousVersions | NothingNew | SeveralOrMissing | NotSettled | SeveralActive | NotReady

  datatype Verdict = Succeeded | ReplacementFailed | Unconfirmed(reason: Reason)

  datatype Outcome = Outcome(verdict: Verdict, runtimeReady: bool)

  function Versions(releases: seq<Release>): (r: seq<int>)
    ensures |r| == |releases|
    ensures forall i :: 0 <= i < |r| ==> r[i] == releases[i].version
  {
    seq(|releases|, i requires 0 <= i < |releases| => releases[i].version)
  }

  /** Safe non-negative integers without repetition. */
  predicate ValidVersions(versions: seq<int>) {
    && (forall i :: 0 <= i < |versions| ==> 0 <= versions[i] <= MAX_SAFE_INTEGER)
    && forall i, j :: 0 <= i < j < |versions| ==> versions[i] != versions[j]
  }

  // ------------------------------------------------------------- the baseline

  function Insert(x: int, sorted: seq<int>): seq<int> {
    if sorted == [] || x <= sorted[0] then [x] + sorted else [sorted[0]] + Insert(x, sorted[1..])
  }

  function Sorted(xs: seq<int>): seq<int> {
    if xs == [] then [] else Insert(xs[|xs| - 1], Sorted(xs[..|xs| - 1]))
  }

  predicate Ascending(xs: seq<int>) {
    forall i, j :: 0 <= i < j < |xs| ==> xs[i] <= xs[j]
  }

  lemma {:induction false} InsertAdds(x: int, sorted: seq<int>)
    ensures multiset(Insert(x, sorted)) == multiset(sorted) + multiset{x}
  {
    if sorted != [] && x > sorted[0] {
      InsertAdds(x, sorted[1..]);
      assert sorted == [sorted[0]] + sorted[1..];
    }
  }

  lemma {:induction false} InsertSorts(x: int, sorted: seq<int>)
    requires Ascending(sorted)
    ensures Ascending(Insert(x, sorted))
    ensures forall k :: 0 <= k < |Insert(x, sorted)| ==> Insert(x, sorted)[k] == x || Insert(x, sorted)[k] in sorted
  {
    if sorted != [] && x > sorted[0] {
      InsertSorts(x, sorted[1..]);
    }
  }

  lemma {:induction false} SortedSorts(xs: seq<int>)
    ensures Ascending(Sorted(xs)) && multiset(Sorted(xs)) == multiset(xs)
  {
    if xs != [] {
      SortedSorts(xs[..|xs| - 1]);
      InsertSorts(xs[|xs| - 1], Sorted(xs[..|xs| - 1]));
      InsertAdds(xs[|xs| - 1], Sorted(xs[..|xs| - 1]));
      assert xs == xs[..|xs| - 1] + [xs[|xs| - 1]];
    }
  }

  /** The first release that is still deploying. */
  function FirstDeploying(releases: seq<Release>): Option<Release> {
    if releases == [] then None
    else if releases[0].status == Deploying then Some(releases[0])
    else FirstDeploying(releases[1..])
  }

  function CaptureBaseline(releases: seq<Release>): Result<seq<int>, CaptureError> {
    if !ValidVersions(Versions(releases)) then Err(AmbiguousHistory)
    else
      var deploying := FirstDeploying(releases);
      if deploying.Some? then Err(CommandInProgress(deploying.value.version)) else Ok(Sorted(Versions(releases)))
  }

  lemma {:induction false} FirstDeployingFinds(releases: seq<Release>)
    ensures FirstDeploying(releases).None? <==> forall r :: r in releases ==> r.status != Deploying
  {
    if releases != [] && releases[0].status != Deploying {
      FirstDeployingFinds(releases[1..]);
      assert forall r :: r in releases <==> r == releases[0] || r in releases[1..];
    }
  }

  /** A baseline is captured exactly from settled, unambiguous history, and lists its versions in ascending order. */
  lemma CaptureExact(releases: seq<Release>)
    ensures var baseline := CaptureBaseline(releases);
            && (baseline.Ok? <==> ValidVersions(Versions(releases))
                                  && forall r :: r in releases ==> r.status != Deploying)
            && (baseline.Ok? ==> Ascending(baseline.value) && multiset(baseline.value) == multiset(Versions(releases)))
  {
    FirstDeployingFinds(releases);
    SortedSorts(Versions(releases));
  }

  // ------------------------------------------------------------- the verdict

  /** The releases whose version the baseline does not hold. */
  function Added(releases: seq<Release>, baseline: seq<int>): seq<Release> {
    if releases == [] then []
    else
      var last := releases[|releases| - 1];
      Added(releases[..|releases| - 1], baseline) + (if last.version in baseline then [] else [last])
  }

  function CountActive(releases: seq<Release>): nat {
    if releases == [] then 0
    else CountActive(releases[..|releases| - 1]) + (if releases[|releases| - 1].status == Active then 1 else 0)
  }

  function Largest(versions: seq<int>): (r: int)
    requires versions != []
    ensures r in versions && forall i :: 0 <= i < |versions| ==> versions[i] <= r
  {
    if |versions| == 1 then versions[0]
    else
      var rest := Largest(versions[1..]);
      if versions[0] >= rest then versions[0] else rest
  }

  function Previous(baseline: seq<int>): int {
    if baseline == [] then 0 else Largest(baseline)
  }

  function Judge(release: Release, releases: seq<Release>, provision: Option<Provision>): Verdict {
    if release.status == Failed then ReplacementFailed
    else if release.status != Active then Unconfirmed(NotSettled)
    else if CountActive(releases) != 1 then Unconfirmed(SeveralActive)
    else if provision.None? || !provision.value.ready || release.failing || provision.value.failing then
      Unconfirmed(NotReady)
    else Succeeded
  }

  function Evaluate(baseline: Option<seq<int>>, provision: Option<Provision>, releases: Option<seq<Release>>): Outcome {
    var verdict :=
      if baseline.None? || !ValidVersions(baseline.value) || releases.None? then Unconfirmed(NoOriginalHistory)
      else if !ValidVersions(Versions(releases.value)) then Unconfirmed(AmbiguousVersions)
      else
        var added := Added(releases.value, baseline.value);
        if added == [] then Unconfirmed(NothingNew)
        else if |added| != 1 || added[0].version != Previous(baseline.value) + 1 then Unconfirmed(SeveralOrMissing)
        else Judge(added[0], releases.value, provision);
    Outcome(verdict, provision.Some? && provision.value.ready)
  }

  /** Why history cannot be used for a baseline. */
  lemma CaptureFaults(releases: seq<Release>)
    ensures CaptureBaseline(releases) == Err(AmbiguousHistory) <==>
              || (exists r :: r in releases && !(0 <= r.version <= 0x1F_FFFF_FFFF_FFFF))
              || (exists i, j :: 0 <= i < j < |releases| && releases[i].version == releases[j].version)
    ensures forall v :: CaptureBaseline(releases) == Err(CommandInProgress(v)) ==>
              exists r :: r in releases && r.status == Deploying && r.version == v
  {
    var versions := Versions(releases);
    FirstDeployingIn(releases);
    assert forall i :: 0 <= i < |releases| ==> releases[i] in releases && versions[i] == releases[i].version;
    if exists r :: r in releases && !(0 <= r.version <= 0x1F_FFFF_FFFF_FFFF) {
      var r :| r in releases && !(0 <= r.version <= 0x1F_FFFF_FFFF_FFFF);
      var i :| 0 <= i < |releases| && releases[i] == r;
      assert versions[i] == r.version;
    }
    if i, j :| 0 <= i < j < |releases| && releases[i].version == releases[j].version {
      assert versions[i] == versions[j];
    }
  }

  lemma {:induction false} FirstDeployingIn(releases: seq<Release>)
    ensures var r := FirstDeploying(releases); r.Some? ==> r.value in releases && r.value.status == Deploying
  {
    if releases != [] && releases[0].status != Deploying {
      FirstDeployingIn(releases[1..]);
    }
  }

  /** The one release that is new, when there is one. */
  ghost predicate OnlyNew(releases: seq<Release>, baseline: seq<int>, release: Release) {
    release in releases && release.version !in baseline
    && forall r :: r in releases && r != release ==> r.version in baseline
  }

  /** What an unconfirmed verdict claims. */
  ghost predicate Doubt(baseline: Option<seq<int>>, provision: Option<Provision>, releases: Option<seq<Release>>,
                        reason: Reason) {
    match reason
    case NoOriginalHistory => baseline == None || releases == None || !ValidVersions(baseline.value)
    case AmbiguousVersions => releases.Some? && !ValidVersions(Versions(releases.value))
    case NothingNew =>
      && baseline.Some? && releases.Some? && forall r :: r in releases.value ==> r.version in baseline.value
    case SeveralOrMissing =>
      baseline.Some? && releases.Some? && NoNextRelease(baseline.value, releases.value)
    case NotSettled =>
      && baseline.Some? && releases.Some?
      && exists r :: OnlyNew(releases.value, baseline.value, r) && r.status != Active && r.status != Failed
    case SeveralActive =>
      && releases.Some?
      && exists i, j :: 0 <= i < j < |releases.value| && releases.value[i].status == Active
                        && releases.value[j].status == Active
    case NotReady =>
      && baseline.Some? && releases.Some?
      && (|| provision == None || !provision.value.ready || provision.value.failing
          || exists r :: OnlyNew(releases.value, baseline.value, r) && r.failing)
  }

  lemma {:induction false} ActiveTwice(releases: seq<Release>)
    ensures CountActive(releases) >= 1 ==> exists i :: 0 <= i < |releases| && releases[i].status == Active
    ensures CountActive(releases) > 1 ==>
              exists i, j :: 0 <= i < j < |releases| && releases[i].status == Active && releases[j].status == Active
  {
    if releases != [] {
      var front, last := releases[..|releases| - 1], |releases| - 1;
      ActiveTwice(front);
      assert forall i :: 0 <= i < last ==> front[i] == releases[i];
      if CountActive(releases) > 1 && releases[last].status == Active {
        var i :| 0 <= i < |front| && front[i].status == Active;
        assert releases[i].status == Active && releases[last].status == Active;
      }
    }
  }

  lemma OnlyNewIsAdded(releases: seq<Release>, baseline: seq<int>)
    requires ValidVersions(Versions(Added(releases, baseline)))
    requires forall r :: r in Added(releases, baseline) <==> r in releases && r.version !in baseline
    ensures var added := Added(releases, baseline);
            && (|added| == 1 ==> OnlyNew(releases, baseline, added[0]) && added[0].version >= 0
                                 && added[0].version !in baseline && added[0] in releases)
            && (forall r :: OnlyNew(releases, baseline, r) ==> |added| == 1 && added[0] == r)
  {
    var added := Added(releases, baseline);
    assert forall i :: 0 <= i < |added| ==> added[i] in added && Versions(added)[i] == added[i].version;
    assert |added| > 1 ==> Versions(added)[0] != Versions(added)[1];
    forall r | OnlyNew(releases, baseline, r) ensures |added| == 1 && added[0] == r {
      assert r in added;
    }
  }

  /** A version that does not come right after the baseline leaves a gap or is too old. */
  lemma NotNext(baseline: seq<int>, version: int)
    requires ValidVersions(baseline) && version >= 0 && version !in baseline && version != Previous(baseline) + 1
    ensures version < 1 || (version > 1 && version - 1 !in baseline) || exists v :: v in baseline && v > version
  {
    assert baseline != [] ==> Previous(baseline) in baseline && Previous(baseline) >= 0;
  }

  /** Every release that is alone new leaves a gap after the baseline or is older than it. */
  ghost predicate NoNextRelease(baseline: seq<int>, releases: seq<Release>) {
    forall r :: OnlyNew(releases, baseline, r) ==>
      r.version < 1 || (r.version > 1 && r.version - 1 !in baseline) || exists v :: v in baseline && v > r.version
  }

  lemma SeveralOrMissingDoubt(baseline: seq<int>, releases: seq<Release>)
    requires ValidVersions(baseline) && ValidVersions(Versions(releases))
    requires var added := Added(releases, baseline); |added| != 1 || added[0].version != Previous(baseline) + 1
    ensures NoNextRelease(baseline, releases)
  {
    hide ValidVersions, Previous;
    var added := Added(releases, baseline);
    AddedExact(releases, baseline);
    AddedDistinct(releases, baseline);
    OnlyNewIsAdded(releases, baseline);
    hide Added, OnlyNew;
    if |added| == 1 {
      NotNext(baseline, added[0].version);
    }
  }

  /** The judgement of the one new release is founded when it is a doubt. */
  lemma JudgedDoubt(baseline: seq<int>, provision: Option<Provision>, releases: seq<Release>, release: Release)
    requires OnlyNew(releases, baseline, release)
    ensures var verdict := Judge(release, releases, provision);
            verdict.Unconfirmed? ==> Doubt(Some(baseline), provision, Some(releases), verdict.reason)
  {
    hide CountActive;
    assert release in releases;
    hide OnlyNew;
    if release.status == Active && CountActive(releases) != 1 {
      ActiveFound(releases, release);
    }
  }

  lemma NewOneIs(baseline: seq<int>, releases: seq<Release>)
    requires ValidVersions(Versions(releases)) && |Added(releases, baseline)| == 1
    ensures OnlyNew(releases, baseline, Added(releases, baseline)[0])
  {
    hide ValidVersions, OnlyNew;
    AddedExact(releases, baseline);
    AddedDistinct(releases, baseline);
    OnlyNewIsAdded(releases, baseline);
  }

  /** Doubts are founded, and whether the workload runs is told as the provider said it. */
  lemma DoubtsAreFounded(baseline: Option<seq<int>>, provision: Option<Provision>, releases: Option<seq<Release>>)
    ensures var r := Evaluate(baseline, provision, releases);
            && (r.verdict.Unconfirmed? ==> Doubt(baseline, provision, releases, r.verdict.reason))
            && (r.runtimeReady <==> provision.Some? && provision.value.ready)
  {
    hide ValidVersions, Previous, NoNextRelease, Judge, Added, OnlyNew;
    if baseline.Some? && releases.Some? && ValidVersions(baseline.value) && ValidVersions(Versions(releases.value)) {
      var added := Added(releases.value, baseline.value);
      AddedExact(releases.value, baseline.value);
      if added == [] {
        assert forall r :: r in releases.value ==> r.version in baseline.value;
      } else if |added| != 1 || added[0].version != Previous(baseline.value) + 1 {
        SeveralOrMissingDoubt(baseline.value, releases.value);
      } else {
        NewOneIs(baseline.value, releases.value);
        JudgedDoubt(baseline.value, provision, releases.value, added[0]);
        hide Doubt;
      }
    }
  }

  lemma ActiveFound(releases: seq<Release>, r: Release)
    requires r in releases && r.status == Active && CountActive(releases) != 1
    ensures CountActive(releases) > 1
    ensures exists i, j :: 0 <= i < j < |releases| && releases[i].status == Active && releases[j].status == Active
  {
    CountActiveNone(releases);
    ActiveTwice(releases);
  }

  // ------------------------------------------------------------- the provider

  /** The rows still kept, oldest first, and the number of the next release. */
  datatype Provider = Provider(rows: seq<Release>, next: nat)

  datatype Op = Create | SetStatus(version: int, status: Status, failing: bool) | Prune(count: nat)

  function Apply(p: Provider, op: Op): Provider {
    match op
    case Create => Provider(p.rows + [Release(p.next, Deploying, false)], p.next + 1)
    case SetStatus(version, status, failing) =>
      p.(rows := seq(|p.rows|, i requires 0 <= i < |p.rows| =>
        if p.rows[i].version == version then Release(version, status, failing) else p.rows[i]))
    case Prune(count) => if count <= |p.rows| then p.(rows := p.rows[count..]) else p
  }

  function Run(p: Provider, ops: seq<Op>): Provider {
    if ops == [] then p else Apply(Run(p, ops[..|ops| - 1]), ops[|ops| - 1])
  }

  function Creations(ops: seq<Op>): nat {
    if ops == [] then 0 else Creations(ops[..|ops| - 1]) + (if ops[|ops| - 1].Create? then 1 else 0)
  }

  const UNUSED := Provider([], 1)

  /** Releases are numbered one by one from 1, and the rows kept are the newest ones. */
  ghost predicate Numbered(p: Provider) {
    |p.rows| < p.next && forall i :: 0 <= i < |p.rows| ==> p.rows[i].version == p.next - |p.rows| + i
  }

  lemma {:induction false} RunKeepsNumbered(p: Provider, ops: seq<Op>)
    requires Numbered(p)
    ensures var q := Run(p, ops);
            && Numbered(q) && q.next == p.next + Creations(ops)
            && p.next - |p.rows| <= q.next - |q.rows|
  {
    if ops != [] {
      RunKeepsNumbered(p, ops[..|ops| - 1]);
    }
  }

  /** A response lists the rows the provider keeps, in any order. */
  ghost predicate Lists(seen: seq<Release>, p: Provider) {
    forall r :: r in seen <==> r in p.rows
  }

  // ------------------------------------------------------------- soundness and completeness

  lemma {:induction false} AddedExact(releases: seq<Release>, baseline: seq<int>)
    ensures forall r :: r in Added(releases, baseline) <==> r in releases && r.version !in baseline
  {
    if releases != [] {
      var front, last := releases[..|releases| - 1], releases[|releases| - 1];
      AddedExact(front, baseline);
      assert releases == front + [last];
    }
  }

  lemma {:induction false} AddedDistinct(releases: seq<Release>, baseline: seq<int>)
    requires ValidVersions(Versions(releases))
    ensures ValidVersions(Versions(Added(releases, baseline)))
  {
    if releases != [] {
      var front, last := releases[..|releases| - 1], releases[|releases| - 1];
      forall i, j | 0 <= i < j < |front| ensures front[i].version != front[j].version {
        assert Versions(releases)[i] != Versions(releases)[j];
      }
      forall i | 0 <= i < |front|
        ensures 0 <= front[i].version <= MAX_SAFE_INTEGER && front[i].version != last.version
      {
        assert Versions(releases)[i] != Versions(releases)[|front|];
        assert 0 <= Versions(releases)[i] <= MAX_SAFE_INTEGER;
      }
      assert 0 <= Versions(releases)[|front|] <= MAX_SAFE_INTEGER;
      AddedDistinct(front, baseline);
      AddedExact(front, baseline);
      var before := Added(front, baseline);
      forall i | 0 <= i < |before| ensures Versions(before)[i] != last.version {
        assert before[i] in before && before[i] in front;
      }
    }
  }

  lemma {:induction false} CountActiveOne(releases: seq<Release>, k: nat)
    requires k < |releases| && releases[k].status == Active
    ensures CountActive(releases) >= 1
    ensures CountActive(releases) == 1 <==> forall i :: 0 <= i < |releases| && i != k ==> releases[i].status != Active
  {
    var n := |releases| - 1;
    var front := releases[..n];
    if k == n {
      CountActiveNone(front);
      assert forall i :: 0 <= i < n ==> front[i] == releases[i];
    } else {
      CountActiveOne(front, k);
      assert forall i :: 0 <= i < n ==> front[i] == releases[i];
    }
  }

  lemma {:induction false} CountActiveNone(releases: seq<Release>)
    ensures CountActive(releases) == 0 <==> forall i :: 0 <= i < |releases| ==> releases[i].status != Active
  {
    if releases != [] {
      var n := |releases| - 1;
      CountActiveNone(releases[..n]);
      assert forall i :: 0 <= i < n ==> releases[..n][i] == releases[i];
    }
  }

  /** One release was created since, its row is still kept, and the baseline saw the release before it, if any. */
  predicate OneIdentified(base: Provider, ops: seq<Op>, now: Provider) {
    Creations(ops) == 1 && now.rows != [] && (base.rows == [] ==> base.next == 1)
  }

  lemma BaselineVersions(p: Provider, seen: seq<Release>)
    requires Numbered(p) && Lists(seen, p) && CaptureBaseline(seen).Ok?
    ensures var baseline := CaptureBaseline(seen).value;
            && ValidVersions(baseline)
            && (forall v :: v in baseline <==> p.next - |p.rows| <= v < p.next)
            && (baseline == [] <==> p.rows == [])
            && (baseline != [] ==> Largest(baseline) == p.next - 1)
  {
    var baseline := CaptureBaseline(seen).value;
    var versions := Versions(seen);
    SortedSorts(versions);
    assert forall v :: v in baseline <==> v in versions by {
      assert forall v :: v in baseline <==> v in multiset(baseline);
      assert forall v :: v in versions <==> v in multiset(versions);
    }
    PermutedValid(versions, baseline);
    forall v ensures v in baseline <==> p.next - |p.rows| <= v < p.next {
      if v in baseline {
        var i :| 0 <= i < |versions| && versions[i] == v;
        assert seen[i] in seen && seen[i] in p.rows;
      }
      if p.next - |p.rows| <= v < p.next {
        var row := p.rows[v - (p.next - |p.rows|)];
        assert row in p.rows && row in seen;
        var i :| 0 <= i < |seen| && seen[i] == row;
        assert versions[i] == v;
      }
    }
    if baseline != [] {
      assert baseline[0] in baseline;
      assert p.next - 1 in baseline;
    }
    if p.rows != [] {
      assert p.next - 1 in baseline;
    }
  }

  lemma PermutedValid(xs: seq<int>, ys: seq<int>)
    requires ValidVersions(xs) && multiset(xs) == multiset(ys)
    ensures ValidVersions(ys)
  {
    forall i | 0 <= i < |ys| ensures 0 <= ys[i] <= MAX_SAFE_INTEGER {
      assert ys[i] in multiset(ys) && ys[i] in multiset(xs);
    }
    forall i, j | 0 <= i < j < |ys| ensures ys[i] != ys[j] {
      if ys[i] == ys[j] {
        assert ys == ys[..i] + [ys[i]] + ys[i + 1..j] + [ys[j]] + ys[j + 1..];
        assert multiset(ys)[ys[i]] >= 2;
        DistinctOnce(xs, ys[i]);
        assert false;
      }
    }
  }

  lemma {:induction false} DistinctOnce(xs: seq<int>, x: int)
    requires forall i, j :: 0 <= i < j < |xs| ==> xs[i] != xs[j]
    ensures multiset(xs)[x] <= 1
  {
    if xs != [] {
      assert xs == [xs[0]] + xs[1..];
      DistinctOnce(xs[1..], x);
      if x == xs[0] {
        assert x !in xs[1..];
        assert multiset(xs[1..])[x] == 0;
      }
    }
  }

  /** The rows that look new are those numbered since the baseline. */
  lemma NewRows(p: Provider, seen0: seq<Release>, ops: seq<Op>, seen: seq<Release>)
    requires Numbered(p) && Lists(seen0, p) && CaptureBaseline(seen0).Ok? && Lists(seen, Run(p, ops))
    ensures forall r :: r in Added(seen, CaptureBaseline(seen0).value) <==> r in Run(p, ops).rows && r.version >= p.next
  {
    var q, baseline := Run(p, ops), CaptureBaseline(seen0).value;
    BaselineVersions(p, seen0);
    RunKeepsNumbered(p, ops);
    AddedExact(seen, baseline);
    forall r | r in q.rows ensures r.version in baseline <==> r.version < p.next {
      var i :| 0 <= i < |q.rows| && q.rows[i] == r;
    }
  }

  lemma RepeatedIsInvalid(rows: seq<Release>, row: Release)
    requires forall i :: 0 <= i < |rows| ==> rows[i] == row
    ensures |rows| >= 2 ==> !ValidVersions(Versions(rows))
  {
    if |rows| >= 2 {
      assert Versions(rows)[0] == Versions(rows)[1];
    }
  }

  lemma NewestIsNew(p: Provider, seen0: seq<Release>, ops: seq<Op>, seen: seq<Release>)
    requires Numbered(p) && Lists(seen0, p) && CaptureBaseline(seen0).Ok? && Lists(seen, Run(p, ops))
    requires OneIdentified(p, ops, Run(p, ops)) && ValidVersions(Versions(seen))
    ensures Added(seen, CaptureBaseline(seen0).value) == [Run(p, ops).rows[|Run(p, ops).rows| - 1]]
  {
    hide CaptureBaseline, Run, Lists;
    var q, added := Run(p, ops), Added(seen, CaptureBaseline(seen0).value);
    RunKeepsNumbered(p, ops);
    NewRows(p, seen0, ops, seen);
    AddedDistinct(seen, CaptureBaseline(seen0).value);
    var newest := q.rows[|q.rows| - 1];
    assert newest in q.rows && newest in added;
    forall i | 0 <= i < |added| ensures added[i] == newest {
      assert added[i] in added && added[i] in q.rows;
    }
    RepeatedIsInvalid(added, newest);
  }

  /** One candidate is left exactly when one release is identified, and then it is the newest row. */
  lemma Identified(p: Provider, seen0: seq<Release>, ops: seq<Op>, seen: seq<Release>)
    requires Numbered(p) && Lists(seen0, p) && CaptureBaseline(seen0).Ok? && Lists(seen, Run(p, ops))
    requires ValidVersions(Versions(seen))
    ensures var (q, baseline) := (Run(p, ops), CaptureBaseline(seen0).value);
            var added := Added(seen, baseline);
            && (|added| == 1 && added[0].version == Previous(baseline) + 1 <==> OneIdentified(p, ops, q))
            && (OneIdentified(p, ops, q) ==> added[0] == q.rows[|q.rows| - 1])
  {
    hide CaptureBaseline, Run, Lists, ValidVersions, Added;
    var q, baseline := Run(p, ops), CaptureBaseline(seen0).value;
    var added := Added(seen, baseline);
    BaselineVersions(p, seen0);
    RunKeepsNumbered(p, ops);
    if OneIdentified(p, ops, q) {
      NewestIsNew(p, seen0, ops, seen);
    } else if |added| == 1 {
      NewRows(p, seen0, ops, seen);
      assert added[0] in added;
      var newest := q.rows[|q.rows| - 1];
      assert newest in q.rows && newest in added;
      assert newest == added[0];
    }
  }

  /** No other row the provider keeps is active. */
  ghost predicate OnlyActive(newest: Release, rows: seq<Release>) {
    newest.status == Active && forall r :: r in rows && r != newest ==> r.status != Active
  }

  lemma ActiveOnce(seen: seq<Release>, q: Provider)
    requires Numbered(q) && Lists(seen, q) && ValidVersions(Versions(seen)) && q.rows != []
    ensures var newest := q.rows[|q.rows| - 1];
            newest.status == Active ==> (CountActive(seen) == 1 <==> OnlyActive(newest, q.rows))
  {
    var newest := q.rows[|q.rows| - 1];
    assert newest in q.rows && newest in seen;
    var k: nat :| k < |seen| && seen[k] == newest;
    if newest.status == Active {
      CountActiveOne(seen, k);
      forall i | 0 <= i < |seen| && i != k ensures seen[i] != newest && seen[i] in q.rows {
        assert Versions(seen)[i] != Versions(seen)[k];
        assert seen[i] in seen;
      }
    }
  }

  lemma VerdictFrom(p: Provider, seen0: seq<Release>, ops: seq<Op>, seen: seq<Release>, provision: Option<Provision>)
    requires Numbered(p) && Lists(seen0, p) && CaptureBaseline(seen0).Ok? && Lists(seen, Run(p, ops))
    ensures VerdictMeans(p, seen0, ops, seen, provision)
  {
    hide ValidVersions, Added, Largest, CaptureBaseline, CountActive;
    var q := Run(p, ops);
    RunKeepsNumbered(p, ops);
    BaselineVersions(p, seen0);
    if ValidVersions(Versions(seen)) {
      Identified(p, seen0, ops, seen);
      if q.rows != [] {
        ActiveOnce(seen, q);
      }
    }
  }

  ghost predicate VerdictMeans(p: Provider, seen0: seq<Release>, ops: seq<Op>, seen: seq<Release>,
                               provision: Option<Provision>)
    requires CaptureBaseline(seen0).Ok?
  {
    var q := Run(p, ops);
    var verdict := Evaluate(Some(CaptureBaseline(seen0).value), provision, Some(seen)).verdict;
    if OneIdentified(p, ops, q) && ValidVersions(Versions(seen)) then
      var newest := q.rows[|q.rows| - 1];
      && newest.version == p.next
      && (verdict == ReplacementFailed <==> newest.status == Failed)
      && (verdict == Succeeded <==>
            && OnlyActive(newest, q.rows) && !newest.failing
            && provision.Some? && provision.value.ready && !provision.value.failing)
    else verdict.Unconfirmed?
  }

  /**
   * The provider numbers releases one by one from 1 and drops only its oldest rows. A verdict is then reached only when
   * exactly one release was created since the baseline and it is identified, and the verdict is about that release:
   * failed exactly when it failed, succeeded exactly when it alone is active and nothing reports a failure. Whatever
   * else happened in between, two creations or none stay unconfirmed.
   */
  lemma VerdictExact(before: seq<Op>, seen0: seq<Release>, ops: seq<Op>, seen: seq<Release>,
                     provision: Option<Provision>)
    requires var p := Run(UNUSED, before); Lists(seen0, p) && CaptureBaseline(seen0).Ok? && Lists(seen, Run(p, ops))
    ensures VerdictMeans(Run(UNUSED, before), seen0, ops, seen, provision)
    ensures Creations(ops) != 1 ==>
      Evaluate(Some(CaptureBaseline(seen0).value), provision, Some(seen)).verdict.Unconfirmed?
  {
    hide Evaluate, CaptureBaseline, Run, Lists;
    ReachableNumbered(before);
    VerdictFrom(Run(UNUSED, before), seen0, ops, seen, provision);
  }

  /** The provider's numbering is kept by every run from an unused lease. */
  lemma ReachableNumbered(ops: seq<Op>)
    ensures Numbered(Run(UNUSED, ops)) && Run(UNUSED, ops).next == 1 + Creations(ops)
  {
    RunKeepsNumbered(UNUSED, ops);
  }
}
