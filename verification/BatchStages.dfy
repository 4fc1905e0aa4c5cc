/** How the planner's two phases relate to one draft at a time. */
module BatchStages {
  import opened Options
  import opened BatchPlan

  function EntryIds(entries: seq<PlanEntry>): (ids: seq<int>)
    ensures |ids| == |entries|
    ensures forall i :: 0 <= i < |ids| ==> ids[i] == entries[i].draftIndex
  {
    seq(|entries|, i requires 0 <= i < |entries| => entries[i].draftIndex)
  }

  function RejectedIds(rejected: seq<RejectedDraft>): (ids: seq<int>)
    ensures |ids| == |rejected|
    ensures forall i :: 0 <= i < |ids| ==> ids[i] == rejected[i].draftIndex
  {
    seq(|rejected|, i requires 0 <= i < |rejected| => rejected[i].draftIndex)
  }

  ghost predicate GoodIdentities(drafts: seq<Draft>) {
    && (forall i :: 0 <= i < |drafts| ==> Identity(drafts, i) >= 0)
    && (forall i, j :: 0 <= i < j < |drafts| ==> Identity(drafts, i) != Identity(drafts, j))
  }

  /** The outcome of one draft next to the entries admitted before it, both phases together. */
  ghost function Outcome(env: Environment, draft: Draft, id: int,
                         before: seq<PlanEntry>): Result<PlanEntry, PlanError> {
    match Prepare(env, draft, id)
    case Err(error) => Err(error)
    case Ok(p) => Admit(env, p, before)
  }

  /** The entries of a partial plan, computed one draft at a time. */
  ghost function Accepted(env: Environment, drafts: seq<Draft>): seq<PlanEntry> {
    if drafts == [] then []
    else
      var last := |drafts| - 1;
      var before := Accepted(env, drafts[..last]);
      match Outcome(env, drafts[last], Identity(drafts, last), before)
      case Ok(entry) => before + [entry]
      case Err(_) => before
  }

  ghost predicate StagesGive(env: Environment, drafts: seq<Draft>, partial: bool, entries: seq<PlanEntry>,
                             rejected: seq<RejectedDraft>) {
    var first := PrepareAll(env, drafts, partial);
    && first.Going?
    && var second := AdmitAll(env, first.kept, partial);
       second.Going? && second.kept == entries && first.rejected + second.rejected == rejected
  }

  lemma PrepareKeepsIdentity(env: Environment, draft: Draft, id: int)
    ensures var r := Prepare(env, draft, id); r.Ok? ==> r.value.draftIndex == id
  {
    hide AvailableName, ReadManifest, Place, Attach, ServiceNames;
  }

  lemma AdmitKeepsIdentity(env: Environment, p: Prepared, before: seq<PlanEntry>)
    ensures var r := Admit(env, p, before); r.Ok? ==> r.value.draftIndex == p.draftIndex
  {
    hide AvailableName, CheckDomain, Names, Domains;
  }

  lemma OutcomeKeepsIdentity(env: Environment, draft: Draft, id: int, before: seq<PlanEntry>)
    ensures var r := Outcome(env, draft, id, before); r.Ok? ==> r.value.draftIndex == id
  {
    hide Prepare, Admit;
    PrepareKeepsIdentity(env, draft, id);
    if Prepare(env, draft, id).Ok? {
      AdmitKeepsIdentity(env, Prepare(env, draft, id).value, before);
    }
  }

  lemma AdmitAllStep(env: Environment, ps: seq<Prepared>, p: Prepared, partial: bool)
    requires AdmitAll(env, ps, partial).Going?
    ensures AdmitAll(env, ps + [p], partial)
         == Keep(AdmitAll(env, ps, partial), p.draftIndex, Admit(env, p, AdmitAll(env, ps, partial).kept), partial)
  {
    assert (ps + [p])[..|ps|] == ps;
  }

  lemma PrefixIdentities(drafts: seq<Draft>)
    requires drafts != []
    ensures GoodIdentities(drafts) <==>
              && GoodIdentities(drafts[..|drafts| - 1])
              && Identity(drafts, |drafts| - 1) >= 0
              && Identity(drafts, |drafts| - 1) !in Identities(drafts[..|drafts| - 1])
  {
    var front, last := drafts[..|drafts| - 1], |drafts| - 1;
    assert forall i :: 0 <= i < last ==> Identity(front, i) == Identity(drafts, i);
    var id := Identity(drafts, last);
    if id !in Identities(front) {
      assert forall i :: 0 <= i < last ==> Identities(front)[i] != id;
    } else {
      var k :| 0 <= k < last && Identities(front)[k] == id;
      assert Identity(drafts, k) == Identity(drafts, last);
    }
  }

  /** In partial mode only a bad identity stops the phases, and the staged result is the one-by-one result. */
  lemma {:induction false} PartialStages(env: Environment, drafts: seq<Draft>)
    ensures PrepareAll(env, drafts, true).Going? <==> GoodIdentities(drafts)
    ensures PrepareAll(env, drafts, true).Stopped? ==> PrepareAll(env, drafts, true).error == BadIdentity
    ensures GoodIdentities(drafts) ==>
              var second := AdmitAll(env, PrepareAll(env, drafts, true).kept, true);
              second.Going? && second.kept == Accepted(env, drafts)
  {
    hide Prepare, Admit;
    if drafts != [] {
      var last := |drafts| - 1;
      var front := drafts[..last];
      PartialStages(env, front);
      PrefixIdentities(drafts);
      if GoodIdentities(drafts) {
        var id := Identity(drafts, last);
        PrepareKeepsIdentity(env, drafts[last], id);
        var ps := PrepareAll(env, front, true).kept;
        match Prepare(env, drafts[last], id)
        case Ok(p) => AdmitAllStep(env, ps, p, true);
        case Err(_) =>
      }
    }
  }

  lemma AdmitAllFront(env: Environment, ps: seq<Prepared>, p: Prepared)
    ensures AdmitAll(env, ps + [p], false).Going? ==> AdmitAll(env, ps, false).Going?
  {
    assert (ps + [p])[..|ps|] == ps;
  }

  /** Each draft's outcome, next to the entries before it, is its entry. */
  ghost predicate Pointwise(env: Environment, drafts: seq<Draft>, entries: seq<PlanEntry>) {
    && |entries| == |drafts|
    && forall i :: 0 <= i < |drafts| ==> Outcome(env, drafts[i], Identity(drafts, i), entries[..i]) == Ok(entries[i])
  }

  lemma {:induction false} PointwiseFront(env: Environment, drafts: seq<Draft>, entries: seq<PlanEntry>)
    requires drafts != [] && |entries| == |drafts|
    ensures var last := |drafts| - 1;
            Pointwise(env, drafts, entries) <==>
              && Pointwise(env, drafts[..last], entries[..last])
              && Outcome(env, drafts[last], Identity(drafts, last), entries[..last]) == Ok(entries[last])
  {
    hide Outcome;
    var last := |drafts| - 1;
    var front, es := drafts[..last], entries[..last];
    forall i | 0 <= i < last
      ensures Identity(front, i) == Identity(drafts, i) && es[..i] == entries[..i]
    {}
    if Pointwise(env, drafts, entries) {
      forall i | 0 <= i < last
        ensures Outcome(env, front[i], Identity(front, i), es[..i]) == Ok(es[i])
      {
        assert Outcome(env, drafts[i], Identity(drafts, i), entries[..i]) == Ok(entries[i]);
      }
    }
    if && Pointwise(env, front, es)
       && Outcome(env, drafts[last], Identity(drafts, last), entries[..last]) == Ok(entries[last]) {
      forall i | 0 <= i < |drafts|
        ensures Outcome(env, drafts[i], Identity(drafts, i), entries[..i]) == Ok(entries[i])
      {
        if i < last {
          assert Outcome(env, front[i], Identity(front, i), es[..i]) == Ok(es[i]);
        }
      }
    }
  }

  /** Atomic phases keep one prepared draft and one entry for every draft, and reject nothing. */
  lemma {:induction false} AtomicPrepared(env: Environment, drafts: seq<Draft>)
    ensures var first := PrepareAll(env, drafts, false);
            first.Going? ==> GoodIdentities(drafts) && first.rejected == [] && |first.kept| == |drafts|
  {
    hide Prepare;
    if drafts != [] {
      AtomicPrepared(env, drafts[..|drafts| - 1]);
      PrefixIdentities(drafts);
    }
  }

  lemma {:induction false} AtomicAdmitted(env: Environment, ps: seq<Prepared>)
    ensures var second := AdmitAll(env, ps, false);
            second.Going? ==> second.rejected == [] && |second.kept| == |ps|
  {
    hide Admit;
    if ps != [] {
      AtomicAdmitted(env, ps[..|ps| - 1]);
    }
  }

  lemma {:induction false} StagesToPoints(env: Environment, drafts: seq<Draft>, entries: seq<PlanEntry>)
    requires StagesGive(env, drafts, false, entries, [])
    ensures GoodIdentities(drafts) && Pointwise(env, drafts, entries)
  {
    hide Prepare, Admit;
    var first := PrepareAll(env, drafts, false);
    AtomicPrepared(env, drafts);
    AtomicAdmitted(env, first.kept);
    if drafts != [] {
      var last := |drafts| - 1;
      var stage := PrepareAll(env, drafts[..last], false);
      var p := first.kept[last];
      assert first.kept == stage.kept + [p];
      AtomicPrepared(env, drafts[..last]);
      AdmitAllFront(env, stage.kept, p);
      AdmitAllStep(env, stage.kept, p, false);
      AtomicAdmitted(env, stage.kept);
      assert entries[..last] == AdmitAll(env, stage.kept, false).kept;
      StagesToPoints(env, drafts[..last], entries[..last]);
      PointwiseFront(env, drafts, entries);
    }
  }

  lemma {:induction false} PointsToStages(env: Environment, drafts: seq<Draft>, entries: seq<PlanEntry>)
    requires GoodIdentities(drafts) && Pointwise(env, drafts, entries)
    ensures StagesGive(env, drafts, false, entries, [])
  {
    hide Prepare, Admit;
    if drafts != [] {
      var last := |drafts| - 1;
      PrefixIdentities(drafts);
      PointwiseFront(env, drafts, entries);
      PointsToStages(env, drafts[..last], entries[..last]);
      PrepareKeepsIdentity(env, drafts[last], Identity(drafts, last));
      var stage := PrepareAll(env, drafts[..last], false);
      var p := Prepare(env, drafts[last], Identity(drafts, last)).value;
      AtomicPrepared(env, drafts[..last]);
      AdmitAllStep(env, stage.kept, p, false);
    }
  }

  /** Atomic phases succeed exactly when every draft's outcome, next to the entries before it, is its entry. */
  lemma AtomicStages(env: Environment, drafts: seq<Draft>, entries: seq<PlanEntry>)
    ensures StagesGive(env, drafts, false, entries, []) <==> GoodIdentities(drafts) && Pointwise(env, drafts, entries)
  {
    if StagesGive(env, drafts, false, entries, []) {
      StagesToPoints(env, drafts, entries);
    }
    if GoodIdentities(drafts) && Pointwise(env, drafts, entries) {
      PointsToStages(env, drafts, entries);
    }
  }
}
