/** Planning again what was planned: a plan is turned back into drafts and planned atomically. */
module BatchReplan {
  import opened Options
  import opened Text
  import opened SkuTiers
  import opened BatchPlan
  import opened BatchStages
  import opened BatchSiblings

  predicate StartsWithBom(s: string) {
    s != "" && s[0] == '\U{FEFF}'
  }

  /** What is assumed of text decoding and JSON parsing: decoding strips one byte order mark, JSON allows none. */
  ghost predicate LawfulText(env: Environment) {
    && (forall bytes, text :: env.decode(bytes) == Some(text) && !StartsWithBom(text) ==>
          env.decode(env.encode(text)) == Some(text))
    && (forall bytes, text :: env.decode(bytes) == Some(text) ==> |env.encode(text)| <= |bytes|)
    && (forall text :: env.encode(text) == [] ==> text == "")
    && (forall text :: text == "" || StartsWithBom(text) ==> env.parse(text) == None)
  }

  // ------------------------------------------------------------- one entry

  /** The stored domain is a fixed point of normalisation, and a service is only named for a domain. */
  predicate DomainSettled(env: Environment, e: PlanEntry) {
    && (e.customDomain.Some? ==> NormalDomain(e.customDomain.value, env.lower) == e.customDomain.value)
    && (e.customDomain.None? ==> e.customDomainServiceName.None?)
  }

  predicate ShowsTier(e: PlanEntry, tier: Tier) {
    Tier(e.size, e.skuUuid, e.providerUuid, e.resources, e.pricePerServiceHour, e.denomSymbol) == tier
  }

  /** The stored size picks the stored tier again, unless a substitution is on record. */
  ghost predicate TierSettled(env: Environment, e: PlanEntry) {
    e.requestedSize.None? ==>
      var r := ResolveSizeOrCheapest(Some(e.size), env.tiers, env.lower);
      r.Some? && r.value.requested.None? && ShowsTier(e, r.value.tier)
  }

  /** An entry comes from some draft, prepared and admitted next to `before`. */
  ghost predicate MadeFrom(env: Environment, e: PlanEntry, draft: Draft, id: int, p: Prepared, before: seq<PlanEntry>) {
    Prepare(env, draft, id) == Ok(p) && Admit(env, p, before) == Ok(e)
  }

  /** The stored manifest reads back the same, from bytes that are not too many. */
  lemma ManifestReplans(env: Environment, bytes: seq<byte>)
    requires LawfulText(env) && ReadManifest(env, bytes).Ok?
    ensures ReadManifest(env, env.encode(ReadManifest(env, bytes).value.manifest)) == ReadManifest(env, bytes)
  {
    var text := env.decode(bytes).value;
    assert env.parse(text).Some?;
    assert !StartsWithBom(text) && text != "";
    assert env.decode(env.encode(text)) == Some(text);
    assert |env.encode(text)| <= |bytes|;
  }

  lemma PlacedBy(env: Environment, size: Option<string>, manifest: string)
    requires Place(env, size, manifest).Ok?
    ensures var place := Place(env, size, manifest).value;
            var r := ResolveSizeOrCheapest(size, env.tiers, env.lower);
            && r.Some? && place.tier == r.value.tier && place.requestedSize == r.value.requested
  {
    hide ResolveSizeOrCheapest;
  }

  /** The same tier is found at the same provider, whatever hint led to it. */
  lemma SameTierSamePlace(env: Environment, size: Option<string>, other: Option<string>, manifest: string)
    requires Place(env, size, manifest).Ok?
    requires var r := ResolveSizeOrCheapest(size, env.tiers, env.lower);
             var s := ResolveSizeOrCheapest(other, env.tiers, env.lower);
             s.Some? && s.value.tier == r.value.tier && s.value.requested == r.value.requested
    ensures Place(env, other, manifest) == Place(env, size, manifest)
  {
    hide ResolveSizeOrCheapest;
  }

  lemma PlacementReplans(env: Environment, size: Option<string>, manifest: string)
    requires Place(env, size, manifest).Ok?
    ensures var place := Place(env, size, manifest).value;
            var again := Place(env, Some(place.requestedSize.GetOr(place.tier.skuName)), manifest);
            again == Ok(place) <==>
              (place.requestedSize.None? ==>
                 var r := ResolveSizeOrCheapest(Some(place.tier.skuName), env.tiers, env.lower);
                 r.Some? && r.value.requested.None? && r.value.tier == place.tier)
  {
    hide Place, ResolveSizeOrCheapest;
    var place := Place(env, size, manifest).value;
    PlacedBy(env, size, manifest);
    var hint := Some(place.requestedSize.GetOr(place.tier.skuName));
    var r := ResolveSizeOrCheapest(hint, env.tiers, env.lower);
    if place.requestedSize.Some? {
      SubstitutionRepeats(size, env.tiers, env.lower);
      SameTierSamePlace(env, size, hint, manifest);
    } else if r.Some? && r.value.requested.None? && r.value.tier == place.tier {
      SameTierSamePlace(env, size, hint, manifest);
    } else if Place(env, hint, manifest) == Ok(place) {
      PlacedBy(env, hint, manifest);
    }
  }

  /** What re-attaching a stored domain and service gives. */
  lemma AttachAgain(domain: Option<string>, service: Option<string>, names: seq<string>, lower: string -> string)
    requires Attach(domain, service, names, lower).Ok?
    ensures var a := Attach(domain, service, names, lower).value;
            var again :=
              if Trim(a.domain) == "" then Attachment("", "")
              else Attachment(NormalDomain(a.domain, lower), a.service);
            Attach(NonEmpty(a.domain), NonEmpty(a.service), names, lower) == Ok(again)
  {
    hide TrimStart, TrimEnd, Trim, NormalDomain;
    TrimNothing();
    TrimIdempotent(service.GetOr(""));
    var a := Attach(domain, service, names, lower).value;
    if Trim(domain.GetOr("")) == "" {
      assert a == Attachment("", "");
    } else if |names| > 1 {
      assert a.service == Trim(service.GetOr("")) && a.service != "";
    }
  }

  /** Re-attaching changes neither, exactly when the domain is settled. */
  lemma AttachmentReplans(domain: Option<string>, service: Option<string>, names: seq<string>, lower: string -> string)
    requires Attach(domain, service, names, lower).Ok?
    ensures var a := Attach(domain, service, names, lower).value;
            Attach(NonEmpty(a.domain), NonEmpty(a.service), names, lower) == Ok(a) <==>
              && (a.domain != "" ==> NormalDomain(a.domain, lower) == a.domain)
              && (a.domain == "" ==> a.service == "")
  {
    hide TrimStart, TrimEnd, Trim, StripDot, Attach;
    TrimNothing();
    AttachAgain(domain, service, names, lower);
  }

  /** The draft made from an entry carries exactly what the entry was prepared from. */
  lemma EntryFields(env: Environment, draft: Draft, id: int, p: Prepared, before: seq<PlanEntry>, e: PlanEntry)
    requires MadeFrom(env, e, draft, id, p, before)
    ensures ReadManifest(env, draft.payload.bytes) == Ok(Read(p.manifest, p.services))
    ensures Place(env, draft.size, p.manifest) == Ok(Placement(p.tier, p.requestedSize, p.providerUrl))
    ensures p.serviceNames == ServiceNames(p.services)
    ensures Attach(draft.customDomain, draft.customDomainServiceName, p.serviceNames, env.lower)
         == Ok(Attachment(p.customDomain, p.customDomainServiceName))
    ensures p.manifestFilename != "" && p.manifestBytes == env.encode(p.manifest)
    ensures CheckDomain(env, p).Ok? && e == Entry(env, p, e.appName, CheckDomain(env, p).value)
    ensures p.draftIndex == id && Usable(e.appName, env.liveNames) && e.appName !in Names(before)
    ensures p.customDomain != "" ==> p.customDomain !in Domains(before)
  {
  }

  /** What preparing the draft of an entry amounts to, given how its parts are read back. */
  lemma PrepareAgain(env: Environment, p: Prepared, e: PlanEntry, w: Option<string>, place: Result<Placement,
                     PlanError>,
                     attachment: Result<Attachment, PlanError>)
    requires e == Entry(env, p, e.appName, w) && Usable(e.appName, env.liveNames)
    requires ReadManifest(env, env.encode(p.manifest)) == Ok(Read(p.manifest, p.services))
    requires p.serviceNames == ServiceNames(p.services)
    requires p.manifestFilename != "" && p.manifestBytes == env.encode(p.manifest)
    requires place == Place(env, Some(p.requestedSize.GetOr(p.tier.skuName)), p.manifest)
    requires attachment
      == Attach(NonEmpty(p.customDomain), NonEmpty(p.customDomainServiceName), p.serviceNames, env.lower)
    ensures var r := Prepare(env, ToDraft(env, e), e.draftIndex);
            && (r.Ok? <==> place.Ok? && attachment.Ok?)
            && (r.Ok? ==> r.value == p.(requestedAppName := e.appName, requestedSize := place.value.requestedSize,
                                        tier := place.value.tier, providerUrl := place.value.providerUrl,
                                        customDomain := attachment.value.domain,
                                        customDomainServiceName := attachment.value.service,
                                        customDomainWarning := NonEmpty(w.GetOr(""))))
  {
    hide Place, Attach, ReadManifest;
  }

  /** Admitting a re-prepared entry under its own name gives the entry back. */
  lemma AdmitAgain(env: Environment, p: Prepared, before: seq<PlanEntry>, e: PlanEntry, w: Option<string>)
    requires CheckDomain(env, p) == Ok(w) && e == Entry(env, p, e.appName, w)
    requires Usable(e.appName, env.liveNames) && e.appName !in Names(before)
    requires p.customDomain != "" ==> p.customDomain !in Domains(before)
    ensures Admit(env, p.(requestedAppName := e.appName, customDomainWarning := NonEmpty(w.GetOr(""))), before) == Ok(e)
  {
    var q := p.(requestedAppName := e.appName, customDomainWarning := NonEmpty(w.GetOr("")));
    var v := CheckDomain(env, q).value;
    assert v == if p.customDomain == "" then NonEmpty(w.GetOr("")) else w;
    assert Entry(env, q, e.appName, v) == Entry(env, p, e.appName, w);
  }

  lemma AdmitShows(env: Environment, p: Prepared, before: seq<PlanEntry>)
    requires Admit(env, p, before).Ok?
    ensures var e := Admit(env, p, before).value;
            && ShowsTier(e, p.tier) && e.requestedSize == p.requestedSize && e.providerUrl == p.providerUrl
            && e.customDomain == NonEmpty(p.customDomain)
            && e.customDomainServiceName == NonEmpty(p.customDomainServiceName)
  {
  }

  /** One entry is planned again unchanged exactly when its tier and its domain are settled. */
  lemma EntryReplans(env: Environment, draft: Draft, id: int, p: Prepared, before: seq<PlanEntry>, e: PlanEntry)
    requires LawfulText(env) && MadeFrom(env, e, draft, id, p, before)
    ensures Outcome(env, ToDraft(env, e), e.draftIndex, before) == Ok(e)
       <==> TierSettled(env, e) && DomainSettled(env, e)
  {
    hide Prepare, Admit, Place, Attach, ReadManifest, CheckDomain, ResolveSizeOrCheapest;
    EntryFields(env, draft, id, p, before, e);
    ManifestReplans(env, draft.payload.bytes);
    PlacementReplans(env, draft.size, p.manifest);
    AttachmentReplans(draft.customDomain, draft.customDomainServiceName, p.serviceNames, env.lower);
    var w := CheckDomain(env, p).value;
    var place := Place(env, Some(p.requestedSize.GetOr(p.tier.skuName)), p.manifest);
    var attachment := Attach(NonEmpty(p.customDomain), NonEmpty(p.customDomainServiceName), p.serviceNames, env.lower);
    PrepareAgain(env, p, e, w, place, attachment);
    AdmitAgain(env, p, before, e, w);
    var again := Prepare(env, ToDraft(env, e), e.draftIndex);
    if again.Ok? && Admit(env, again.value, before) == Ok(e) {
      AdmitShows(env, again.value, before);
      assert place.value == Placement(p.tier, p.requestedSize, p.providerUrl);
      assert attachment.value == Attachment(p.customDomain, p.customDomainServiceName);
    }
  }

  // ------------------------------------------------------------- the whole plan

  ghost predicate Settled(env: Environment, entries: seq<PlanEntry>) {
    forall i :: 0 <= i < |entries| ==> TierSettled(env, entries[i]) && DomainSettled(env, entries[i])
  }

  /** Every accepted entry was made from one of the drafts, next to the entries before it. */
  lemma {:induction false} AcceptedOrigin(env: Environment, drafts: seq<Draft>, i: nat) returns (k: nat, p: Prepared)
    requires i < |Accepted(env, drafts)|
    ensures k < |drafts|
    ensures MadeFrom(env, Accepted(env, drafts)[i], drafts[k], Identity(drafts, k), p, Accepted(env, drafts)[..i])
  {
    hide Prepare, Admit;
    var last := |drafts| - 1;
    var before := Accepted(env, drafts[..last]);
    if i < |before| {
      k, p := AcceptedOrigin(env, drafts[..last], i);
      assert Accepted(env, drafts)[..i] == before[..i];
    } else {
      k := last;
      p := Prepare(env, drafts[last], Identity(drafts, last)).value;
      assert Accepted(env, drafts)[..i] == before;
    }
  }

  lemma PlanDraftIdentities(env: Environment, drafts: seq<Draft>)
    requires GoodIdentities(drafts)
    ensures GoodIdentities(ToDrafts(env, Accepted(env, drafts)))
  {
    hide Prepare, Admit;
    var entries := Accepted(env, drafts);
    forall i | 0 <= i < |entries| ensures entries[i].draftIndex >= 0 {
      var k, p := AcceptedOrigin(env, drafts, i);
      PrepareKeepsIdentity(env, drafts[k], Identity(drafts, k));
      AdmitKeepsIdentity(env, p, entries[..i]);
    }
    AcceptedIdsDistinct(env, drafts);
  }

  ghost predicate DistinctIds(entries: seq<PlanEntry>) {
    forall i, j :: 0 <= i < j < |entries| ==> entries[i].draftIndex != entries[j].draftIndex
  }

  lemma {:induction false} AcceptedIdsDistinct(env: Environment, drafts: seq<Draft>)
    requires GoodIdentities(drafts)
    ensures DistinctIds(Accepted(env, drafts))
  {
    hide Prepare, Admit;
    if drafts != [] {
      var last := |drafts| - 1;
      PrefixIdentities(drafts);
      AcceptedIdsDistinct(env, drafts[..last]);
      AcceptedIds(env, drafts[..last]);
      var before := Accepted(env, drafts[..last]);
      OutcomeKeepsIdentity(env, drafts[last], Identity(drafts, last), before);
      var outcome := Outcome(env, drafts[last], Identity(drafts, last), before);
      if outcome.Ok? {
        forall i | 0 <= i < |before| ensures before[i].draftIndex != outcome.value.draftIndex {
          assert EntryIds(before)[i] in EntryIds(before);
        }
        assert Accepted(env, drafts) == before + [outcome.value];
      }
    }
  }

  /**
   * Planning the drafts of an accepted plan, in an unchanged environment, succeeds atomically and gives exactly the
   * same plan if and only if every entry's tier and domain are settled.
   */
  lemma ReplanExactly(env: Environment, drafts: seq<Draft>, partial: bool)
    requires LawfulText(env) && PlanDrafts(env, drafts, partial).Planned?
    ensures var plan := PlanDrafts(env, drafts, partial).plan;
            (PlanDrafts(env, ToDrafts(env, plan.content.entries), false) == Planned(plan, []))
              <==> Settled(env, plan.content.entries)
  {
    hide Prepare, Admit, PrepareAll, AdmitAll, Finish, PlanDrafts, TierSettled, DomainSettled;
    var result := PlanDrafts(env, drafts, partial);
    var entries := result.plan.content.entries;
    var again := ToDrafts(env, entries);
    PlannedStages(env, drafts, partial);
    PlannedIsAccepted(env, drafts, partial);
    PlanDraftIdentities(env, drafts);
    forall i | 0 <= i < |entries|
      ensures Outcome(env, again[i], Identity(again, i), entries[..i]) == Ok(entries[i])
          <==> TierSettled(env, entries[i]) && DomainSettled(env, entries[i])
    {
      var k, p := AcceptedOrigin(env, drafts, i);
      EntryReplans(env, drafts[k], Identity(drafts, k), p, entries[..i], entries[i]);
    }
    AtomicStages(env, again, entries);
    if Settled(env, entries) {
      PlannedFromStages(env, again, entries);
      FinishWithout(env, entries, result.rejected);
    }
    if PlanDrafts(env, again, false) == Planned(result.plan, []) {
      PlannedStages(env, again, false);
    }
  }

  lemma FinishWithout(env: Environment, entries: seq<PlanEntry>, rejected: seq<RejectedDraft>)
    requires Finish(env, entries, rejected).Planned?
    ensures Finish(env, entries, []) == Planned(Finish(env, entries, rejected).plan, [])
  {
  }

  /** A draft's domain is empty or already in normal form. */
  ghost predicate NormalDraft(env: Environment, draft: Draft) {
    var domain := draft.customDomain.GetOr("");
    Trim(domain) == "" || NormalDomain(domain, env.lower) == domain
  }

  /** With well-named tiers and normal domains, planning again changes no suffix, substitution or total. */
  lemma ReplanUnchanged(env: Environment, drafts: seq<Draft>, partial: bool)
    requires LawfulText(env) && WellNamed(env.tiers, env.lower) && LowerKeepsEmpty(env.lower)
    requires forall i :: 0 <= i < |drafts| ==> NormalDraft(env, drafts[i])
    requires PlanDrafts(env, drafts, partial).Planned?
    ensures var plan := PlanDrafts(env, drafts, partial).plan;
            PlanDrafts(env, ToDrafts(env, plan.content.entries), false) == Planned(plan, [])
  {
    hide Prepare, Admit, PrepareAll, AdmitAll, Finish, PlanDrafts, TierSettled, DomainSettled, NormalDraft;
    var entries := PlanDrafts(env, drafts, partial).plan.content.entries;
    PlannedStages(env, drafts, partial);
    PlannedIsAccepted(env, drafts, partial);
    forall i | 0 <= i < |entries| ensures TierSettled(env, entries[i]) && DomainSettled(env, entries[i]) {
      var k, p := AcceptedOrigin(env, drafts, i);
      NormalEntrySettles(env, drafts[k], Identity(drafts, k), p, entries[..i], entries[i]);
    }
    ReplanExactly(env, drafts, partial);
  }

  lemma NormalEntrySettles(env: Environment, draft: Draft, id: int, p: Prepared, before: seq<PlanEntry>, e: PlanEntry)
    requires MadeFrom(env, e, draft, id, p, before) && NormalDraft(env, draft)
    requires env.tiers != [] && WellNamed(env.tiers, env.lower) && LowerKeepsEmpty(env.lower)
    ensures TierSettled(env, e) && DomainSettled(env, e)
  {
    hide Prepare, Admit, CheckDomain, ReadManifest, ResolveSizeOrCheapest, Place, Attach;
    hide TrimStart, TrimEnd, Trim, StripDot;
    TrimNothing();
    EntryFields(env, draft, id, p, before, e);
    PlacedBy(env, draft.size, p.manifest);
    ResolutionRepeats(draft.size, env.tiers, env.lower);
    NormalAttach(draft.customDomain, draft.customDomainServiceName, p.serviceNames, env.lower);
  }

  lemma NormalAttach(domain: Option<string>, service: Option<string>, names: seq<string>, lower: string -> string)
    requires Attach(domain, service, names, lower).Ok?
    requires Trim(domain.GetOr("")) == "" || NormalDomain(domain.GetOr(""), lower) == domain.GetOr("")
    ensures var a := Attach(domain, service, names, lower).value;
            && (a.domain != "" ==> NormalDomain(a.domain, lower) == a.domain)
            && (a.domain == "" ==> a.service == "")
  {
    hide TrimStart, TrimEnd, Trim, StripDot;
    TrimNothing();
  }

  // ------------------------------------------------------------- where planning again drifts

  /** A lone dot normalises to no domain but keeps a service name, which planning again would drop. */
  lemma DotDrifts(lower: string -> string, service: string)
    requires lower(".") == "." && service != ""
    ensures var a := Attach(Some("."), None, [service], lower);
            && a == Ok(Attachment("", service))
            && Attach(NonEmpty(a.value.domain), NonEmpty(a.value.service), [service], lower) == Ok(Attachment("", ""))
  {
    hide TrimStart, TrimEnd, Trim;
    TrimNothing();
    TrimKeeps(".");
  }

  /** Only one trailing dot is removed at a time, so a second one goes when the plan is planned again. */
  lemma DoubleDotDrifts(lower: string -> string)
    requires lower("a.b..") == "a.b.." && lower("a.b.") == "a.b."
    ensures NormalDomain("a.b..", lower) == "a.b." && NormalDomain("a.b.", lower) == "a.b"
  {
    hide TrimStart, TrimEnd, Trim;
    TrimKeeps("a.b..");
    TrimKeeps("a.b.");
  }

  // ------------------------------------------------------------- a plan that drifts

  const BYTES: seq<byte> := [0]
  const SMALL := Tier("small", "sku", "p", Spec(1.0, 1.0, 1.0), 1.0, "PWR")

  /** A catalogue in which two tier names differ only in case. */
  const TWINS := [Tier("small", "sku-1", "p", Spec(1.0, 1.0, 1.0), 2.0, "PWR"),
                  Tier("Small", "sku-2", "p", Spec(1.0, 1.0, 1.0), 1.0, "PWR")]

  function DriftLower(s: string): string {
    if s == "Small" then "small" else s
  }

  /** A catalogue at one provider, one manifest with one service, and a balance that covers it. */
  function DriftEnvironment(tiers: seq<Tier>): Environment {
    Environment(
      s => DriftLower(s), (bytes: seq<byte>) => if bytes == BYTES then Some("m") else None,
      (text: string) => if text == "" then [] else BYTES,
      (text: string) => if text == "m" then Some(Manifest(None, [Service("web", "image", [], [])])) else None,
      (manifest, url) => None, domain => DomainVerdict(None, None), domain => Unattached, bytes => "", content => "",
      {}, tiers, [Provider("p", "url")], Credits(1.0))
  }

  function DriftDraft(domain: string): Draft {
    Draft(None, "app", Payload(BYTES, "manifest", 1, ""), None, Some(domain), None, None)
  }

  /** Without a size hint the tier is the cheapest one, at the one provider and for the whole balance. */
  ghost predicate PicksCheapest(tiers: seq<Tier>, tier: Tier) {
    && ResolveSizeOrCheapest(None, tiers, DriftEnvironment(tiers).lower)
         == Some(SizeResolution(tier, CheapestOmitted, None))
    && tier.providerUuid == "p" && tier.pricePerHour == 1.0
  }

  lemma DriftEnvironmentLawful(tiers: seq<Tier>)
    ensures LawfulText(DriftEnvironment(tiers))
  {
  }

  /** The entry planned for the draft: its domain is what one normalisation leaves. */
  lemma DriftEntry(tiers: seq<Tier>, tier: Tier, domain: string) returns (p: Prepared, e: PlanEntry)
    requires PicksCheapest(tiers, tier) && Trim(domain) == domain && domain !in {"", "Small"}
    ensures var env := DriftEnvironment(tiers);
            && MadeFrom(env, e, DriftDraft(domain), 0, p, [])
            && e.customDomain == NonEmpty(StripDot(domain)) && e.customDomainServiceName == Some("web")
            && e.totalPricePerHour == 1.0 && ShowsTier(e, tier) && e.requestedSize == None
  {
    hide TrimStart, TrimEnd, Trim, StripDot, ResolveSizeOrCheapest;
    var env := DriftEnvironment(tiers);
    TrimNothing();
    var services := [Service("web", "image", [], [])];
    assert services[1..] == [] && ServiceNames(services) == ["web"];
    assert ReadManifest(env, BYTES) == Ok(Read("m", services));
    assert Place(env, None, "m") == Ok(Placement(tier, None, "url"));
    assert Attach(Some(domain), None, ["web"], env.lower) == Ok(Attachment(StripDot(domain), "web"));
    assert Usable("app", {});
    p := Prepare(env, DriftDraft(domain), 0).value;
    e := Admit(env, p, []).value;
  }

  lemma DriftPlans(tiers: seq<Tier>, tier: Tier, domain: string) returns (e: PlanEntry)
    requires PicksCheapest(tiers, tier) && tiers != [] && Trim(domain) == domain && domain !in {"", "Small"}
    ensures var r := PlanDrafts(DriftEnvironment(tiers), [DriftDraft(domain)], false);
            r.Planned? && r.plan.content.entries == [e]
    ensures e.customDomain == NonEmpty(StripDot(domain)) && e.customDomainServiceName == Some("web")
    ensures ShowsTier(e, tier) && e.requestedSize == None
  {
    hide Prepare, Admit, DriftEnvironment, TrimStart, TrimEnd, Trim, StripDot;
    var env, drafts := DriftEnvironment(tiers), [DriftDraft(domain)];
    var p, entry := DriftEntry(tiers, tier, domain);
    e := entry;
    assert drafts[..0] == [] && Identity(drafts, 0) == 0;
    assert GoodIdentities(drafts);
    assert Pointwise(env, drafts, [e]) by {
      assert [e][..0] == [];
    }
    AtomicStages(env, drafts, [e]);
    DriftFinishes(tiers, e);
    PlannedFromStages(env, drafts, [e]);
  }

  lemma DriftFinishes(tiers: seq<Tier>, e: PlanEntry)
    requires e.totalPricePerHour == 1.0
    ensures DriftEnvironment(tiers).tiers == tiers
    ensures var r := Finish(DriftEnvironment(tiers), [e], []); r.Planned? && r.plan.content.entries == [e]
  {
    assert [e][..0] == [];
    assert TotalPrice([e]) == TotalPrice([e][..0]) + 1.0;
  }

  /** A draft is planned, and planning its plan again does not give it back. */
  ghost predicate Drifts(env: Environment, draft: Draft) {
    var r := PlanDrafts(env, [draft], false);
    && LawfulText(env) && r.Planned?
    && PlanDrafts(env, ToDrafts(env, r.plan.content.entries), false) != Planned(r.plan, [])
  }

  lemma UnsettledDrifts(tiers: seq<Tier>, domain: string, e: PlanEntry)
    requires var r := PlanDrafts(DriftEnvironment(tiers), [DriftDraft(domain)], false);
             r.Planned? && r.plan.content.entries == [e]
    requires var env := DriftEnvironment(tiers); !TierSettled(env, e) || !DomainSettled(env, e)
    ensures Drifts(DriftEnvironment(tiers), DriftDraft(domain))
  {
    hide PlanDrafts, TierSettled, DomainSettled, DriftEnvironment;
    DriftEnvironmentLawful(tiers);
    assert [e][0] == e;
    ReplanExactly(DriftEnvironment(tiers), [DriftDraft(domain)], false);
  }

  /** Domains that are not normal after one normalisation make whole plans drift. */
  lemma PlansDrift(domain: string)
    requires domain in {".", "a.b.."}
    ensures Drifts(DriftEnvironment([SMALL]), DriftDraft(domain))
  {
    hide PlanDrafts, TrimStart, TrimEnd, Trim, Drifts;
    assert PicksCheapest([SMALL], SMALL);
    TrimKeeps(domain);
    var e := DriftPlans([SMALL], SMALL, domain);
    assert StripDot(domain) == if domain == "." then "" else "a.b.";
    TrimKeeps("a.b.");
    assert !DomainSettled(DriftEnvironment([SMALL]), e);
    UnsettledDrifts([SMALL], domain, e);
  }

  /** So do tier names that differ only in case: the plan of the second tier comes back with the first one. */
  lemma CaseDrifts()
    ensures Drifts(DriftEnvironment(TWINS), DriftDraft("a.b"))
  {
    hide PlanDrafts, TrimStart, TrimEnd, Trim, Drifts, ResolveSizeOrCheapest;
    CaseCollisionDrifts(DriftEnvironment(TWINS).lower);
    assert PicksCheapest(TWINS, TWINS[1]);
    TrimKeeps("a.b");
    var e := DriftPlans(TWINS, TWINS[1], "a.b");
    assert !TierSettled(DriftEnvironment(TWINS), e);
    UnsettledDrifts(TWINS, "a.b", e);
  }
}
