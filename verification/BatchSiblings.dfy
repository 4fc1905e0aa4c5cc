/** What the drafts of one batch owe each other: unique names and domains, a full account, and no trace of rejects. */
module BatchSiblings {
  import opened Options
  import opened BatchPlan
  import opened BatchStages

  // ------------------------------------------------------------- admitted entries

  /** Names are usable and pairwise distinct, and so are the attached domains. */
  ghost predicate Reserved(entries: seq<PlanEntry>, live: set<string>) {
    && (forall i :: 0 <= i < |entries| ==> Usable(entries[i].appName, live))
    && (forall i, j :: 0 <= i < j < |entries| ==> entries[i].appName != entries[j].appName)
    && (forall i, j :: 0 <= i < j < |entries| && entries[i].customDomain.Some? ==>
          entries[i].customDomain != entries[j].customDomain)
  }

  /** What one outcome promises: the entry is new to the entries it was admitted next to. */
  lemma AdmittedIsNew(env: Environment, draft: Draft, id: int, before: seq<PlanEntry>)
    requires Outcome(env, draft, id, before).Ok?
    ensures var e := Outcome(env, draft, id, before).value;
            && Usable(e.appName, env.liveNames) && e.appName !in Names(before)
            && (e.customDomain.Some? ==> e.customDomain.value !in Domains(before))
  {
    hide Prepare;
  }

  lemma {:induction false} AcceptedReserved(env: Environment, drafts: seq<Draft>)
    ensures Reserved(Accepted(env, drafts), env.liveNames)
    ensures |Accepted(env, drafts)| <= |drafts|
  {
    hide Prepare, Admit;
    if drafts != [] {
      var last := |drafts| - 1;
      var before := Accepted(env, drafts[..last]);
      AcceptedReserved(env, drafts[..last]);
      var id := Identity(drafts, last);
      if Outcome(env, drafts[last], id, before).Ok? {
        AdmittedIsNew(env, drafts[last], id, before);
        var e := Outcome(env, drafts[last], id, before).value;
        forall i | 0 <= i < |before|
          ensures before[i].appName != e.appName
          ensures before[i].customDomain.Some? ==> before[i].customDomain != e.customDomain
        {
          assert before[i].appName in Names(before);
          assert before[i].customDomain.Some? ==> before[i].customDomain.value in Domains(before);
        }
      }
    }
  }

  /** An atomic plan is also what partial mode would have made of the same drafts. */
  lemma {:induction false} AtomicAccepted(env: Environment, drafts: seq<Draft>, entries: seq<PlanEntry>)
    requires StagesGive(env, drafts, false, entries, [])
    ensures GoodIdentities(drafts) && entries == Accepted(env, drafts)
    ensures StagesGive(env, drafts, true, entries, [])
  {
    AtomicStages(env, drafts, entries);
    PartialStages(env, drafts);
    PrefixAccepted(env, drafts, entries, |drafts|);
    assert drafts[..|drafts|] == drafts && entries[..|drafts|] == entries;
    NoRejects(env, drafts);
  }

  lemma {:induction false} PrefixAccepted(env: Environment, drafts: seq<Draft>, entries: seq<PlanEntry>, n: nat)
    requires n <= |drafts| && Pointwise(env, drafts, entries)
    ensures Accepted(env, drafts[..n]) == entries[..n]
  {
    hide Prepare, Admit;
    if n > 0 {
      PrefixAccepted(env, drafts, entries, n - 1);
      assert drafts[..n][..n - 1] == drafts[..n - 1];
      assert Identity(drafts[..n], n - 1) == Identity(drafts, n - 1);
      assert Outcome(env, drafts[n - 1], Identity(drafts, n - 1), entries[..n - 1]) == Ok(entries[n - 1]);
      assert entries[..n] == entries[..n - 1] + [entries[n - 1]];
    }
  }

  /** When atomic phases go through, partial phases go through identically. */
  lemma {:induction false} NoRejects(env: Environment, drafts: seq<Draft>)
    ensures PrepareAll(env, drafts, false).Going? ==>
              PrepareAll(env, drafts, true) == PrepareAll(env, drafts, false)
              && forall n {:trigger PrepareAll(env, drafts, false).kept[..n]} ::
                   0 <= n <= |PrepareAll(env, drafts, false).kept| ==>
                     var ps := PrepareAll(env, drafts, false).kept[..n];
                     AdmitAll(env, ps, false).Going? ==> AdmitAll(env, ps, true) == AdmitAll(env, ps, false)
  {
    hide Prepare, Admit;
    PrepareAgrees(env, drafts);
    if PrepareAll(env, drafts, false).Going? {
      var all := PrepareAll(env, drafts, false).kept;
      forall n | 0 <= n <= |all|
        ensures AdmitAll(env, all[..n], false).Going? ==>
                  AdmitAll(env, all[..n], true) == AdmitAll(env, all[..n], false)
      {
        AdmitAgrees(env, all[..n]);
      }
      assert all[..|all|] == all;
    }
  }

  lemma {:induction false} PrepareAgrees(env: Environment, drafts: seq<Draft>)
    ensures PrepareAll(env, drafts, false).Going? ==> PrepareAll(env, drafts, true) == PrepareAll(env, drafts, false)
  {
    hide Prepare;
    if drafts != [] {
      PrepareAgrees(env, drafts[..|drafts| - 1]);
    }
  }

  lemma {:induction false} AdmitAgrees(env: Environment, ps: seq<Prepared>)
    ensures AdmitAll(env, ps, false).Going? ==> AdmitAll(env, ps, true) == AdmitAll(env, ps, false)
  {
    hide Admit;
    if ps != [] {
      AdmitAgrees(env, ps[..|ps| - 1]);
    }
  }

  lemma FinishedEntries(env: Environment, entries: seq<PlanEntry>, rejected: seq<RejectedDraft>)
    ensures var r := Finish(env, entries, rejected);
            r.Planned? ==> r.plan.content.entries == entries && r.rejected == rejected && entries != []
  {
  }

  /** A plan is what finishing its two phases gives. */
  lemma PlannedStages(env: Environment, drafts: seq<Draft>, partial: bool)
    requires PlanDrafts(env, drafts, partial).Planned?
    ensures var r := PlanDrafts(env, drafts, partial);
            && StagesGive(env, drafts, partial, r.plan.content.entries, r.rejected)
            && Finish(env, r.plan.content.entries, r.rejected) == r
            && r.plan.content.entries != [] && env.tiers != []
  {
    hide PrepareAll, AdmitAll, Finish;
    var first := PrepareAll(env, drafts, partial);
    var second := AdmitAll(env, first.kept, partial);
    FinishedEntries(env, second.kept, first.rejected + second.rejected);
  }

  /** However it was planned, a plan's entries are the ones accepted one by one. */
  lemma PlannedIsAccepted(env: Environment, drafts: seq<Draft>, partial: bool)
    requires PlanDrafts(env, drafts, partial).Planned?
    ensures GoodIdentities(drafts)
    ensures PlanDrafts(env, drafts, partial).plan.content.entries == Accepted(env, drafts)
  {
    hide PrepareAll, AdmitAll, Finish, PlanDrafts;
    var r := PlanDrafts(env, drafts, partial);
    PlannedStages(env, drafts, partial);
    if partial {
      PartialStages(env, drafts);
    } else {
      AtomicRejectsNothing(env, drafts, r.plan.content.entries, r.rejected);
      AtomicAccepted(env, drafts, r.plan.content.entries);
    }
  }

  lemma AtomicRejectsNothing(env: Environment, drafts: seq<Draft>, entries: seq<PlanEntry>,
                             rejected: seq<RejectedDraft>)
    requires StagesGive(env, drafts, false, entries, rejected)
    ensures rejected == []
  {
    hide Prepare, Admit;
    AtomicPrepared(env, drafts);
    AtomicAdmitted(env, PrepareAll(env, drafts, false).kept);
  }

  /** Names and attached domains of an accepted plan are pairwise distinct, and every name is deployable. */
  lemma PlanReserves(env: Environment, drafts: seq<Draft>, partial: bool)
    requires PlanDrafts(env, drafts, partial).Planned?
    ensures Reserved(PlanDrafts(env, drafts, partial).plan.content.entries, env.liveNames)
  {
    PlannedIsAccepted(env, drafts, partial);
    AcceptedReserved(env, drafts);
  }

  // ------------------------------------------------------------- every draft is accounted for

  function PreparedIds(ps: seq<Prepared>): (ids: seq<int>)
    ensures |ids| == |ps|
    ensures forall i :: 0 <= i < |ids| ==> ids[i] == ps[i].draftIndex
  {
    seq(|ps|, i requires 0 <= i < |ps| => ps[i].draftIndex)
  }

  lemma {:induction false} PreparePartitions(env: Environment, drafts: seq<Draft>, partial: bool)
    requires PrepareAll(env, drafts, partial).Going?
    ensures var stage := PrepareAll(env, drafts, partial);
            Partition(PreparedIds(stage.kept), RejectedIds(stage.rejected), Identities(drafts))
  {
    hide Prepare, Partition;
    if drafts == [] {
      EmptyPartition();
    } else {
      var last := |drafts| - 1;
      var id := Identity(drafts, last);
      PreparePartitions(env, drafts[..last], partial);
      PrepareKeepsIdentity(env, drafts[last], id);
      assert Identities(drafts) == Identities(drafts[..last]) + [id];
      var before := PrepareAll(env, drafts[..last], partial);
      KeepAddsPrepared(before, id, Prepare(env, drafts[last], id), partial);
      PartitionGrows(PreparedIds(before.kept), RejectedIds(before.rejected), Identities(drafts[..last]), id);
    }
  }

  lemma KeepAddsPrepared(before: Stage<Prepared>, id: int, outcome: Result<Prepared, PlanError>, partial: bool)
    requires before.Going? && Keep(before, id, outcome, partial).Going?
    requires outcome.Ok? ==> outcome.value.draftIndex == id
    ensures var after := Keep(before, id, outcome, partial);
            && (outcome.Ok? ==> PreparedIds(after.kept) == PreparedIds(before.kept) + [id]
                                && after.rejected == before.rejected)
            && (outcome.Err? ==> RejectedIds(after.rejected) == RejectedIds(before.rejected) + [id]
                                 && after.kept == before.kept)
  {
  }

  lemma KeepAddsEntry(before: Stage<PlanEntry>, id: int, outcome: Result<PlanEntry, PlanError>, partial: bool)
    requires before.Going? && Keep(before, id, outcome, partial).Going?
    requires outcome.Ok? ==> outcome.value.draftIndex == id
    ensures var after := Keep(before, id, outcome, partial);
            && (outcome.Ok? ==> EntryIds(after.kept) == EntryIds(before.kept) + [id]
                                && after.rejected == before.rejected)
            && (outcome.Err? ==> RejectedIds(after.rejected) == RejectedIds(before.rejected) + [id]
                                 && after.kept == before.kept)
  {
  }

  lemma {:induction false} AdmitPartitions(env: Environment, ps: seq<Prepared>, partial: bool)
    requires AdmitAll(env, ps, partial).Going?
    ensures var stage := AdmitAll(env, ps, partial);
            Partition(EntryIds(stage.kept), RejectedIds(stage.rejected), PreparedIds(ps))
  {
    hide Admit, Partition;
    if ps == [] {
      EmptyPartition();
    } else {
      var last := |ps| - 1;
      AdmitPartitions(env, ps[..last], partial);
      var before := AdmitAll(env, ps[..last], partial);
      AdmitKeepsIdentity(env, ps[last], before.kept);
      assert PreparedIds(ps) == PreparedIds(ps[..last]) + [ps[last].draftIndex];
      KeepAddsEntry(before, ps[last].draftIndex, Admit(env, ps[last], before.kept), partial);
      PartitionGrows(EntryIds(before.kept), RejectedIds(before.rejected), PreparedIds(ps[..last]), ps[last].draftIndex);
    }
  }

  /** Two lists hold together exactly the elements of a third, counted. */
  ghost predicate Partition(kept: seq<int>, rejected: seq<int>, all: seq<int>) {
    multiset(kept) + multiset(rejected) == multiset(all)
  }

  lemma EmptyPartition()
    ensures Partition([], [], [])
  {
  }

  lemma PartitionGrows(kept: seq<int>, rejected: seq<int>, all: seq<int>, id: int)
    requires Partition(kept, rejected, all)
    ensures Partition(kept + [id], rejected, all + [id])
    ensures Partition(kept, rejected + [id], all + [id])
  {
  }

  lemma PartitionsCompose(kept: seq<int>, late: seq<int>, middle: seq<int>, early: seq<int>, all: seq<int>)
    requires Partition(kept, late, middle) && Partition(middle, early, all)
    ensures Partition(kept, early + late, all)
  {
  }

  lemma AppendedId(entries: seq<PlanEntry>, e: PlanEntry)
    ensures EntryIds(entries + [e]) == EntryIds(entries) + [e.draftIndex]
  {
  }

  /** Accepted and rejected identities together are exactly the drafts' identities, each once. */
  lemma PlanPartitionsDrafts(env: Environment, drafts: seq<Draft>, partial: bool)
    requires PlanDrafts(env, drafts, partial).Planned?
    ensures var r := PlanDrafts(env, drafts, partial);
            Partition(EntryIds(r.plan.content.entries), RejectedIds(r.rejected), Identities(drafts))
    ensures forall i, j :: 0 <= i < j < |drafts| ==> Identities(drafts)[i] != Identities(drafts)[j]
  {
    hide PrepareAll, AdmitAll, Finish, PlanDrafts, Partition;
    var r := PlanDrafts(env, drafts, partial);
    PlannedStages(env, drafts, partial);
    PlannedIsAccepted(env, drafts, partial);
    var first := PrepareAll(env, drafts, partial);
    var second := AdmitAll(env, first.kept, partial);
    PreparePartitions(env, drafts, partial);
    AdmitPartitions(env, first.kept, partial);
    assert RejectedIds(r.rejected) == RejectedIds(first.rejected) + RejectedIds(second.rejected);
    PartitionsCompose(EntryIds(second.kept), RejectedIds(second.rejected), PreparedIds(first.kept),
                      RejectedIds(first.rejected), Identities(drafts));
  }

  // ------------------------------------------------------------- rejected drafts leave no trace

  /** The drafts whose identity is listed, each now carrying that identity. */
  function WithIdentities(drafts: seq<Draft>, ids: seq<int>): seq<Draft> {
    if drafts == [] then []
    else
      var last := |drafts| - 1;
      WithIdentities(drafts[..last], ids)
      + (if Identity(drafts, last) in ids then [drafts[last].(draftIndex := Some(Identity(drafts, last)))] else [])
  }

  /** A draft's outcome does not depend on whether its identity is explicit. */
  lemma ExplicitIdentity(env: Environment, draft: Draft, id: int, before: seq<PlanEntry>)
    ensures Outcome(env, draft.(draftIndex := Some(id)), id, before) == Outcome(env, draft, id, before)
  {
    hide Admit;
  }

  lemma AcceptedIds(env: Environment, drafts: seq<Draft>)
    ensures forall id :: id in EntryIds(Accepted(env, drafts)) ==> id in Identities(drafts)
  {
    hide Prepare, Admit;
    if drafts != [] {
      var last := |drafts| - 1;
      AcceptedIds(env, drafts[..last]);
      assert Identities(drafts) == Identities(drafts[..last]) + [Identity(drafts, last)];
      var before := Accepted(env, drafts[..last]);
      OutcomeKeepsIdentity(env, drafts[last], Identity(drafts, last), before);
      if Outcome(env, drafts[last], Identity(drafts, last), before).Ok? {
        AppendedId(before, Outcome(env, drafts[last], Identity(drafts, last), before).value);
      }
    }
  }

  /** Keeping only the accepted identities, atomic phases give the very same entries. */
  lemma {:induction false} SurvivorsAlone(env: Environment, drafts: seq<Draft>, ids: seq<int>)
    requires GoodIdentities(drafts)
    requires forall id :: id in EntryIds(Accepted(env, drafts)) ==> id in ids
    requires forall id :: id in ids && id in Identities(drafts) ==> id in EntryIds(Accepted(env, drafts))
    ensures StagesGive(env, WithIdentities(drafts, ids), false, Accepted(env, drafts), [])
    ensures Identities(WithIdentities(drafts, ids)) == EntryIds(Accepted(env, drafts))
  {
    hide Prepare, Admit;
    if drafts != [] {
      var last := |drafts| - 1;
      var front := drafts[..last];
      var id := Identity(drafts, last);
      var before := Accepted(env, front);
      var outcome := Outcome(env, drafts[last], id, before);
      PrefixIdentities(drafts);
      OutcomeKeepsIdentity(env, drafts[last], id, before);
      AcceptedIds(env, front);
      assert Identities(drafts) == Identities(front) + [id];
      if outcome.Ok? {
        AppendedId(before, outcome.value);
      }
      SurvivorsAlone(env, front, ids);
      var kept := WithIdentities(front, ids);
      assert id in Identities(drafts);
      if outcome.Ok? {
        var draft := drafts[last].(draftIndex := Some(id));
        assert id in EntryIds(Accepted(env, drafts));
        assert WithIdentities(drafts, ids) == kept + [draft];
        ExplicitIdentity(env, drafts[last], id, before);
        SurvivorJoins(env, kept, before, draft, id);
      } else {
        assert Accepted(env, drafts) == before && id !in EntryIds(before) && id !in ids;
        assert WithIdentities(drafts, ids) == kept + [] == kept;
      }
    }
  }

  /** One more surviving draft extends the atomic phases by its own entry. */
  lemma SurvivorJoins(env: Environment, kept: seq<Draft>, before: seq<PlanEntry>, draft: Draft, id: int)
    requires StagesGive(env, kept, false, before, [])
    requires Identities(kept) == EntryIds(before) && id >= 0 && id !in Identities(kept)
    requires draft.draftIndex == Some(id) && Outcome(env, draft, id, before).Ok?
    ensures var e := Outcome(env, draft, id, before).value;
            && StagesGive(env, kept + [draft], false, before + [e], [])
            && Identities(kept + [draft]) == EntryIds(before + [e])
  {
    hide Prepare, Admit;
    var e := Outcome(env, draft, id, before).value;
    var all, es := kept + [draft], before + [e];
    OutcomeKeepsIdentity(env, draft, id, before);
    AtomicStages(env, kept, before);
    assert all[..|kept|] == kept;
    PrefixIdentities(all);
    assert es[..|kept|] == before;
    PointwiseFront(env, all, es);
    AtomicStages(env, all, es);
    assert Identities(all) == Identities(kept) + [id];
    AppendedId(before, e);
  }

  /**
   * A partial plan is the atomic plan of its surviving drafts with the same identities:
   * the rejected ones changed no name, domain, price or total.
   */
  lemma RejectedLeaveNoTrace(env: Environment, drafts: seq<Draft>)
    requires PlanDrafts(env, drafts, true).Planned?
    ensures var plan := PlanDrafts(env, drafts, true).plan;
            PlanDrafts(env, WithIdentities(drafts, EntryIds(plan.content.entries)), false) == Planned(plan, [])
  {
    hide PrepareAll, AdmitAll, PlanDrafts, TotalPrice, TotalServices;
    var plan := PlanDrafts(env, drafts, true).plan;
    PlannedStages(env, drafts, true);
    PlannedIsAccepted(env, drafts, true);
    SurvivorsAlone(env, drafts, EntryIds(plan.content.entries));
    PlannedFromStages(env, WithIdentities(drafts, EntryIds(plan.content.entries)), plan.content.entries);
  }

  /** Atomic phases that give some entries make the planner finish with them. */
  lemma PlannedFromStages(env: Environment, drafts: seq<Draft>, entries: seq<PlanEntry>)
    requires StagesGive(env, drafts, false, entries, []) && env.tiers != [] && entries != []
    ensures PlanDrafts(env, drafts, false) == Finish(env, entries, [])
  {
    hide Prepare, Admit;
    AtomicStages(env, drafts, entries);
  }
}
