/** The planner as it runs: two loops that grow the used names, domains and identities, with early returns. */
module BatchPlanner {
  import opened Options
  import opened AppNames
  import opened BatchPlan

  /** Tries the requested name, then the suffixes -2 to -99. */
  method NextAvailableName(requested: string, live: set<string>,
                           used: set<string>) returns (r: Result<string, PlanError>)
    ensures r == AvailableName(requested, live, used)
  {
    if Usable(requested, live) && requested !in used {
      return Ok(requested);
    }
    var nameIsUsable := false;
    for suffix := 2 to 100
      invariant NumberedName(requested, live, used, 2) == NumberedName(requested, live, used, suffix)
      invariant suffix > 2 ==> nameIsUsable == Usable(Suffixed(requested, suffix - 1), live)
    {
      var candidate := Suffixed(requested, suffix);
      nameIsUsable := Usable(candidate, live);
      if nameIsUsable && candidate !in used {
        return Ok(candidate);
      }
    }
    return Err(if nameIsUsable then NamesExhausted(requested) else NameUnusable(requested));
  }

  /** A phase that stopped on a prefix stays stopped on the whole. */
  lemma {:induction false} PrepareStaysStopped(env: Environment, drafts: seq<Draft>, partial: bool, n: nat)
    requires n <= |drafts| && PrepareAll(env, drafts[..n], partial).Stopped?
    ensures PrepareAll(env, drafts, partial) == PrepareAll(env, drafts[..n], partial)
    decreases |drafts| - n
  {
    hide Prepare;
    if n == |drafts| {
      assert drafts[..n] == drafts;
    } else {
      assert drafts[..n + 1][..n] == drafts[..n];
      PrepareStaysStopped(env, drafts, partial, n + 1);
    }
  }

  lemma {:induction false} AdmitStaysStopped(env: Environment, ps: seq<Prepared>, partial: bool, n: nat)
    requires n <= |ps| && AdmitAll(env, ps[..n], partial).Stopped?
    ensures AdmitAll(env, ps, partial) == AdmitAll(env, ps[..n], partial)
    decreases |ps| - n
  {
    hide Admit;
    if n == |ps| {
      assert ps[..n] == ps;
    } else {
      assert ps[..n + 1][..n] == ps[..n];
      AdmitStaysStopped(env, ps, partial, n + 1);
    }
  }

  /** The entry-local loop. `usedIdentities` is the set of identities seen so far. */
  method PrepareDrafts(env: Environment, drafts: seq<Draft>, partial: bool) returns (stage: Stage<Prepared>)
    ensures stage == PrepareAll(env, drafts, partial)
  {
    hide Prepare;
    var prepared: seq<Prepared>, rejected: seq<RejectedDraft> := [], [];
    var usedIdentities: set<int> := {};
    for i := 0 to |drafts|
      invariant PrepareAll(env, drafts[..i], partial) == Going(prepared, rejected)
      invariant forall id :: id in usedIdentities <==> id in Identities(drafts[..i])
    {
      var id := drafts[i].draftIndex.GetOr(i);
      assert drafts[..i + 1][..i] == drafts[..i];
      assert Identities(drafts[..i + 1]) == Identities(drafts[..i]) + [id];
      assert Identity(drafts[..i + 1], i) == id;
      if id < 0 || id in usedIdentities {
        PrepareStaysStopped(env, drafts, partial, i + 1);
        return Stopped(BadIdentity);
      }
      usedIdentities := usedIdentities + {id};
      var outcome := Prepare(env, drafts[i], id);
      if outcome.Ok? {
        prepared := prepared + [outcome.value];
      } else if partial {
        rejected := rejected + [RejectedDraft(id, outcome.error)];
      } else {
        PrepareStaysStopped(env, drafts, partial, i + 1);
        return Stopped(outcome.error);
      }
    }
    assert drafts[..|drafts|] == drafts;
    return Going(prepared, rejected);
  }

  /** The reservation loop. Names and domains are marked used for admitted entries only. */
  method AdmitPrepared(env: Environment, ps: seq<Prepared>, partial: bool) returns (stage: Stage<PlanEntry>)
    ensures stage == AdmitAll(env, ps, partial)
  {
    hide Admit;
    var entries: seq<PlanEntry>, rejected: seq<RejectedDraft> := [], [];
    var usedNames: set<string>, usedDomains: set<string> := {}, {};
    for i := 0 to |ps|
      invariant AdmitAll(env, ps[..i], partial) == Going(entries, rejected)
      invariant usedNames == Names(entries) && usedDomains == Domains(entries)
    {
      var p := ps[i];
      assert ps[..i + 1][..i] == ps[..i];
      var outcome := AdmitOne(env, p, usedNames, usedDomains, entries);
      if outcome.Ok? {
        AdmittedUses(env, p, entries);
        entries := entries + [outcome.value];
        usedNames := usedNames + {outcome.value.appName};
        if p.customDomain != "" {
          usedDomains := usedDomains + {p.customDomain};
        }
      } else if partial {
        rejected := rejected + [RejectedDraft(p.draftIndex, outcome.error)];
      } else {
        AdmitStaysStopped(env, ps, partial, i + 1);
        return Stopped(outcome.error);
      }
    }
    assert ps[..|ps|] == ps;
    return Going(entries, rejected);
  }

  lemma AdmittedUses(env: Environment, p: Prepared, entries: seq<PlanEntry>)
    requires Admit(env, p, entries).Ok?
    ensures var e := Admit(env, p, entries).value;
            && Names(entries + [e]) == Names(entries) + {e.appName}
            && Domains(entries + [e]) == Domains(entries) + (if p.customDomain != "" then {p.customDomain} else {})
  {
    var e := Admit(env, p, entries).value;
    var all := entries + [e];
    assert all[|entries|] == e && e.customDomain == NonEmpty(p.customDomain);
    assert forall i :: 0 <= i < |entries| ==> all[i] == entries[i];
    assert e.appName in Names(all);
    assert p.customDomain != "" ==> p.customDomain in Domains(all);
    forall n | n in Names(entries) ensures n in Names(all) {
      var i :| 0 <= i < |entries| && entries[i].appName == n;
      assert all[i].appName == n;
    }
    forall d | d in Domains(entries) ensures d in Domains(all) {
      var i :| 0 <= i < |entries| && entries[i].customDomain == Some(d);
      assert all[i].customDomain.value == d;
    }
  }

  method AdmitOne(env: Environment, p: Prepared, usedNames: set<string>, usedDomains: set<string>,
                  ghost entries: seq<PlanEntry>) returns (r: Result<PlanEntry, PlanError>)
    requires usedNames == Names(entries) && usedDomains == Domains(entries)
    ensures r == Admit(env, p, entries)
  {
    var warning := p.customDomainWarning;
    if p.customDomain != "" {
      var verdict := env.validateDomain(p.customDomain);
      if verdict.error.Some? {
        return Err(DomainInvalid(verdict.error.value));
      }
      warning := verdict.warning;
      if env.findLease(p.customDomain).AttachedTo? {
        return Err(DomainAttached(p.customDomain));
      }
    }
    var name := NextAvailableName(p.requestedAppName, env.liveNames, usedNames);
    if name.Err? {
      return Err(name.error);
    }
    if p.customDomain != "" && p.customDomain in usedDomains {
      return Err(DomainRepeated(p.customDomain));
    }
    return Ok(Entry(env, p, name.value, warning));
  }

  method PlanBatchDeploy(env: Environment, drafts: seq<Draft>, partial: bool) returns (r: PlanResult)
    ensures r == PlanDrafts(env, drafts, partial)
  {
    if drafts == [] {
      return Refused(NoApps, []);
    }
    if env.tiers == [] {
      return Refused(CatalogUnavailable, []);
    }
    var first := PrepareDrafts(env, drafts, partial);
    if first.Stopped? {
      return Refused(first.error, []);
    }
    if first.kept == [] {
      return Refused(NothingLeft, first.rejected);
    }
    var second := AdmitPrepared(env, first.kept, partial);
    if second.Stopped? {
      return Refused(second.error, []);
    }
    return Finish(env, second.kept, first.rejected + second.rejected);
  }
}
