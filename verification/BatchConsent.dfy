/** The gate before broadcast: the approved plan is planned again, and goes ahead only if its hash is the same. */
module BatchConsent {
  import opened Options
  import opened SkuTiers
  import opened BatchPlan
  import opened BatchStages
  import opened BatchSiblings
  import opened BatchReplan

  /** Text handling and hashing are code and do not change; everything else in the environment may. */
  ghost predicate SameCode(before: Environment, now: Environment) {
    && before.lower == now.lower && before.decode == now.decode && before.encode == now.encode
    && before.parse == now.parse && before.contentHash == now.contentHash && before.planHash == now.planHash
  }

  /** Two different plan contents with one hash. */
  predicate Collide(hash: PlanContent -> string, a: PlanContent, b: PlanContent) {
    a != b && hash(a) == hash(b)
  }

  // ------------------------------------------------------------- what one entry depends on

  /** The size on record picks the same tier at the same price, by substitution if it was substituted before. */
  predicate TierStands(now: Environment, e: PlanEntry) {
    var r := ResolveSizeOrCheapest(Some(e.requestedSize.GetOr(e.size)), now.tiers, now.lower);
    r.Some? && r.value.requested == e.requestedSize && ShowsTier(e, r.value.tier)
  }

  /** The provider is still reachable at the same address and accepts the manifest. */
  predicate ProviderStands(now: Environment, e: PlanEntry) {
    var provider := FindProvider(now.providers, e.providerUuid);
    provider.Some? && provider.value.apiUrl == e.providerUrl && now.providerVerdict(e.manifest, e.providerUrl) == None
  }

  /** The domain reads back unchanged, is still valid with the same warning, and no lease holds it. */
  predicate DomainStands(now: Environment, e: PlanEntry) {
    && DomainSettled(now, e)
    && (e.customDomain.Some? ==>
          var verdict := now.validateDomain(e.customDomain.value);
          && verdict.error == None && NonEmpty(verdict.warning.GetOr("")) == e.customDomainWarning
          && !now.findLease(e.customDomain.value).AttachedTo?)
  }

  predicate Stands(now: Environment, e: PlanEntry) {
    Usable(e.appName, now.liveNames) && TierStands(now, e) && ProviderStands(now, e) && DomainStands(now, e)
  }

  predicate Affordable(now: Environment, entries: seq<PlanEntry>) {
    now.credit.Credits? && (TotalPrice(entries) > 0.0 ==> now.credit.amount >= TotalPrice(entries))
  }

  lemma PlaceMeans(env: Environment, size: Option<string>, manifest: string, placement: Placement)
    ensures Place(env, size, manifest) == Ok(placement) <==>
              var r := ResolveSizeOrCheapest(size, env.tiers, env.lower);
              && r.Some? && r.value.tier == placement.tier && r.value.requested == placement.requestedSize
              && FindProvider(env.providers, placement.tier.providerUuid).Some?
              && FindProvider(env.providers, placement.tier.providerUuid).value.apiUrl == placement.providerUrl
              && placement.providerUrl != "" && env.providerVerdict(manifest, placement.providerUrl) == None
  {
    hide ResolveSizeOrCheapest, FindProvider;
  }

  lemma PlacementStands(now: Environment, p: Prepared, e: PlanEntry)
    requires ShowsTier(e, p.tier) && e.requestedSize == p.requestedSize && e.providerUrl == p.providerUrl
    requires e.manifest == p.manifest && p.providerUrl != ""
    ensures Place(now, Some(p.requestedSize.GetOr(p.tier.skuName)), p.manifest)
              == Ok(Placement(p.tier, p.requestedSize, p.providerUrl))
       <==> TierStands(now, e) && ProviderStands(now, e)
  {
    hide Place, ResolveSizeOrCheapest, FindProvider;
    PlaceMeans(now, Some(p.requestedSize.GetOr(p.tier.skuName)), p.manifest,
               Placement(p.tier, p.requestedSize, p.providerUrl));
  }

  /** Admitting gives an entry that shows what was prepared, under a usable name and with a domain that was free. */
  lemma AdmitGives(env: Environment, p: Prepared, before: seq<PlanEntry>, e: PlanEntry)
    requires Admit(env, p, before) == Ok(e)
    ensures Usable(e.appName, env.liveNames) && CheckDomain(env, p).Ok?
    ensures e == Entry(env, p, e.appName, CheckDomain(env, p).value)
  {
  }

  lemma AdmitUnderOwnName(env: Environment, p: Prepared, before: seq<PlanEntry>, e: PlanEntry)
    requires Usable(e.appName, env.liveNames) && e.appName !in Names(before) && p.requestedAppName == e.appName
    requires p.customDomain != "" ==> p.customDomain !in Domains(before)
    requires CheckDomain(env, p).Ok? && e == Entry(env, p, e.appName, CheckDomain(env, p).value)
    ensures Admit(env, p, before) == Ok(e)
  {
  }

  /** Under another warning an entry differs exactly if the warning shows. */
  lemma WarningShows(env: Environment, p: Prepared, q: Prepared, name: string, w: Option<string>, v: Option<string>)
    requires q == p.(requestedAppName := q.requestedAppName, customDomainWarning := q.customDomainWarning)
    ensures Entry(env, q, name, v) == Entry(env, p, name, w) <==> NonEmpty(v.GetOr("")) == NonEmpty(w.GetOr(""))
    ensures var e := Entry(env, p, name, w);
            && e.customDomain == NonEmpty(p.customDomain) && e.customDomainWarning == NonEmpty(w.GetOr(""))
            && e.customDomainServiceName == NonEmpty(p.customDomainServiceName)
  {
    var a, b := Entry(env, q, name, v), Entry(env, p, name, w);
    assert a == b.(customDomainWarning := a.customDomainWarning);
  }

  /** For the same prepared draft in the new environment, the domain check alone decides. */
  lemma DomainCheckStands(now: Environment, p: Prepared, q: Prepared, e: PlanEntry, w: Option<string>)
    requires e == Entry(now, p, e.appName, w) && (p.customDomain == "" ==> p.customDomainServiceName == "")
    requires p.customDomain != "" ==> NormalDomain(p.customDomain, now.lower) == p.customDomain
    requires q == p.(requestedAppName := e.appName, customDomainWarning := NonEmpty(w.GetOr("")))
    ensures CheckDomain(now, q).Ok? && e == Entry(now, q, e.appName, CheckDomain(now, q).value)
       <==> DomainStands(now, e)
  {
    hide Entry, NormalDomain;
    var check := CheckDomain(now, q);
    WarningShows(now, p, q, e.appName, w, if check.Ok? then check.value else None);
  }

  /** One entry of an approved plan is planned again unchanged exactly when all it depends on stands. */
  lemma EntryStandsExactly(before: Environment, now: Environment, draft: Draft, id: int, p: Prepared,
                           prior: seq<PlanEntry>, e: PlanEntry)
    requires LawfulText(before) && SameCode(before, now) && MadeFrom(before, e, draft, id, p, prior)
    ensures Outcome(now, ToDraft(now, e), e.draftIndex, prior) == Ok(e) <==> Stands(now, e)
  {
    hide Prepare, Admit, Place, Attach, ReadManifest, CheckDomain, ResolveSizeOrCheapest, TierStands, ProviderStands;
    hide DomainStands, Usable, AvailableName, Names, Domains, ServiceNames, NormalDomain, LawfulText, MadeFrom;
    EntryFields(before, draft, id, p, prior, e);
    PlacedAtAddress(before, draft.size, p.manifest);
    ManifestReplans(before, draft.payload.bytes);
    SameReading(before, now, before.encode(p.manifest));
    AttachmentReplans(draft.customDomain, draft.customDomainServiceName, p.serviceNames, now.lower);
    var w := CheckDomain(before, p).value;
    SameEntry(before, now, p, e.appName, w);
    hide Entry;
    PlacementStands(now, p, e);
    if Usable(e.appName, now.liveNames) {
      UsableEntryStands(now, p, prior, e, w);
    } else if Outcome(now, ToDraft(now, e), e.draftIndex, prior) == Ok(e) {
      AdmitGives(now, Prepare(now, ToDraft(now, e), e.draftIndex).value, prior, e);
    }
  }

  lemma SameEntry(before: Environment, now: Environment, p: Prepared, name: string, w: Option<string>)
    requires SameCode(before, now)
    ensures Entry(before, p, name, w) == Entry(now, p, name, w)
  {
  }

  lemma PlacedAtAddress(env: Environment, size: Option<string>, manifest: string)
    requires Place(env, size, manifest).Ok?
    ensures Place(env, size, manifest).value.providerUrl != ""
  {
    hide ResolveSizeOrCheapest, FindProvider;
  }

  lemma SameReading(before: Environment, now: Environment, bytes: seq<byte>)
    requires SameCode(before, now)
    ensures ReadManifest(now, bytes) == ReadManifest(before, bytes)
  {
  }

  lemma UsableEntryStands(now: Environment, p: Prepared, prior: seq<PlanEntry>, e: PlanEntry, w: Option<string>)
    requires Usable(e.appName, now.liveNames) && e.appName !in Names(prior) && e == Entry(now, p, e.appName, w)
    requires p.customDomain != "" ==> p.customDomain !in Domains(prior)
    requires ReadManifest(now, now.encode(p.manifest)) == Ok(Read(p.manifest, p.services))
    requires p.serviceNames == ServiceNames(p.services) && p.providerUrl != ""
    requires p.manifestFilename != "" && p.manifestBytes == now.encode(p.manifest)
    requires var (domain, service) := (NonEmpty(p.customDomain), NonEmpty(p.customDomainServiceName));
             var again := Attach(domain, service, p.serviceNames, now.lower);
             again == Ok(Attachment(p.customDomain, p.customDomainServiceName)) <==>
               && (p.customDomain != "" ==> NormalDomain(p.customDomain, now.lower) == p.customDomain)
               && (p.customDomain == "" ==> p.customDomainServiceName == "")
    ensures Outcome(now, ToDraft(now, e), e.draftIndex, prior) == Ok(e) <==> Stands(now, e)
  {
    hide Prepare, Admit, Place, Attach, ReadManifest, CheckDomain, ResolveSizeOrCheapest, TierStands, ProviderStands;
    hide DomainStands, NormalDomain;
    var place := Place(now, Some(p.requestedSize.GetOr(p.tier.skuName)), p.manifest);
    var attachment := Attach(NonEmpty(p.customDomain), NonEmpty(p.customDomainServiceName), p.serviceNames, now.lower);
    PrepareAgain(now, p, e, w, place, attachment);
    PlacementStands(now, p, e);
    var again := Prepare(now, ToDraft(now, e), e.draftIndex);
    var same := p.(requestedAppName := e.appName, customDomainWarning := NonEmpty(w.GetOr("")));
    if again.Ok? && Admit(now, again.value, prior) == Ok(e) {
      AdmitGives(now, again.value, prior, e);
      assert place.value == Placement(p.tier, p.requestedSize, p.providerUrl);
      assert attachment.value == Attachment(p.customDomain, p.customDomainServiceName);
      assert again.value == same;
      DomainCheckStands(now, p, same, e, w);
    }
    if Stands(now, e) {
      SettledOfStands(now, e);
      DomainCheckStands(now, p, same, e, w);
      assert again == Ok(same);
      AdmitUnderOwnName(now, same, prior, e);
    }
  }

  lemma SettledOfStands(now: Environment, e: PlanEntry)
    requires DomainStands(now, e)
    ensures DomainSettled(now, e)
  {
  }

  // ------------------------------------------------------------- the whole plan

  ghost predicate AllStand(now: Environment, entries: seq<PlanEntry>) {
    forall i :: 0 <= i < |entries| ==> Stands(now, entries[i])
  }

  /** Planned one by one in the new environment, the entries come back exactly when all of them stand. */
  lemma PlanStands(before: Environment, now: Environment, drafts: seq<Draft>)
    requires LawfulText(before) && SameCode(before, now) && GoodIdentities(drafts)
    ensures var entries := Accepted(before, drafts);
            StagesGive(now, ToDrafts(now, entries), false, entries, []) <==> AllStand(now, entries)
  {
    hide Prepare, Admit, Stands, LawfulText;
    var entries := Accepted(before, drafts);
    var again := ToDrafts(now, entries);
    PlanDraftIdentities(before, drafts);
    assert again == ToDrafts(before, entries);
    forall i | 0 <= i < |entries|
      ensures Outcome(now, again[i], Identity(again, i), entries[..i]) == Ok(entries[i]) <==> Stands(now, entries[i])
    {
      var k, p := AcceptedOrigin(before, drafts, i);
      EntryStandsExactly(before, now, drafts[k], Identity(drafts, k), p, entries[..i], entries[i]);
    }
    AtomicStages(now, again, entries);
  }

  lemma FinishAgain(before: Environment, now: Environment, entries: seq<PlanEntry>, rejected: seq<RejectedDraft>)
    requires Finish(before, entries, rejected).Planned? && before.planHash == now.planHash
    ensures Affordable(now, entries) ==> Finish(now, entries, []) == Planned(Finish(before, entries, rejected).plan, [])
    ensures Finish(now, entries, []).Planned? ==> Affordable(now, entries)
  {
  }

  lemma StandingHasTiers(now: Environment, e: PlanEntry)
    requires Stands(now, e)
    ensures now.tiers != []
  {
  }

  /**
   * Whatever changed since the plan was approved, planning it again gives the approved plan back if and only if every
   * entry's name, tier, price, provider and domain stand and the balance covers the total. Unless the hash collides on
   * the two plans, the comparison of their hashes lets through exactly that.
   */
  lemma GateExactly(before: Environment, now: Environment, approved: seq<Draft>, partial: bool)
    requires LawfulText(before) && SameCode(before, now) && PlanDrafts(before, approved, partial).Planned?
    ensures var plan := PlanDrafts(before, approved, partial).plan;
            var refreshed := PlanDrafts(now, ToDrafts(now, plan.content.entries), false);
            var stands := AllStand(now, plan.content.entries) && Affordable(now, plan.content.entries);
            && (refreshed == Planned(plan, []) <==> stands)
            && (refreshed.Planned? && !Collide(now.planHash, refreshed.plan.content, plan.content) ==>
                  (refreshed.plan.planHash == plan.planHash <==> stands))
  {
    hide Prepare, Admit, PrepareAll, AdmitAll, Finish, PlanDrafts, Stands, LawfulText, Affordable, StagesGive;
    var result := PlanDrafts(before, approved, partial);
    var entries := result.plan.content.entries;
    var again := ToDrafts(now, entries);
    PlannedStages(before, approved, partial);
    PlannedIsAccepted(before, approved, partial);
    PlanStands(before, now, approved);
    FinishAgain(before, now, entries, result.rejected);
    PlanHashed(before, approved, partial);
    var refreshed := PlanDrafts(now, again, false);
    if AllStand(now, entries) && Affordable(now, entries) {
      StandingHasTiers(now, entries[0]);
      PlannedFromStages(now, again, entries);
    }
    if refreshed.Planned? {
      PlanHashed(now, again, false);
      if refreshed.plan.content == result.plan.content {
        PlannedStages(now, again, false);
        AtomicRejectsNothing(now, again, entries, refreshed.rejected);
      }
    }
  }

  lemma PlanHashed(env: Environment, drafts: seq<Draft>, partial: bool)
    requires PlanDrafts(env, drafts, partial).Planned?
    ensures var plan := PlanDrafts(env, drafts, partial).plan; plan.planHash == env.planHash(plan.content)
  {
    hide PrepareAll, AdmitAll;
  }
}
