/** What a plan says of its drafts: entries are true, totals add up, and every refusal has its cause. */
module BatchMeaning {
  import opened Options
  import opened Text
  import opened SkuTiers
  import opened BatchPlan
  import opened BatchStages
  import opened BatchSiblings
  import opened BatchReplan

  // ------------------------------------------------------------- what an entry shows

  /** The names are those of the services that have one, in order, read from the end. */
  ghost predicate NamesOf(services: seq<Service>, names: seq<string>) {
    if services == [] then names == []
    else
      var last := |services| - 1;
      if services[last].name == "" then NamesOf(services[..last], names)
      else names != [] && names[|names| - 1] == services[last].name && NamesOf(services[..last], names[..|names| - 1])
  }

  /** The text that the draft's bytes encode, of at most 5 KiB, and what it says. */
  ghost predicate ShowsManifest(env: Environment, draft: Draft, e: PlanEntry) {
    && 0 < |draft.payload.bytes| <= 5120 && env.decode(draft.payload.bytes) == Some(e.manifest)
    && e.services != [] && env.parse(e.manifest) == Some(Manifest(None, e.services))
    && e.manifestSize == |env.encode(e.manifest)| && e.manifestHash == env.contentHash(env.encode(e.manifest))
    && e.manifestFilename == (if draft.payload.filename == "" then "manifest.json" else draft.payload.filename)
    && NamesOf(e.services, e.serviceNames)
  }

  /** The tier that the size hint means, with its price for every service. */
  ghost predicate ShowsPrice(env: Environment, draft: Draft, e: PlanEntry) {
    && (exists r, k :: Meant(draft.size, env.tiers, env.lower, r, k) && ShowsTier(e, r.tier)
                       && e.requestedSize == r.requested)
    && e.serviceCount == |e.services| && e.totalPricePerHour == e.pricePerServiceHour * e.serviceCount as real
  }

  /** The first provider of that identifier, which is reachable and takes the manifest. */
  ghost predicate ShowsProvider(env: Environment, e: PlanEntry) {
    exists k: nat :: FirstProvider(env.providers, e.providerUuid, k) && e.providerUrl == env.providers[k].apiUrl
             && e.providerUrl != "" && env.providerVerdict(e.manifest, e.providerUrl) == None
  }

  ghost predicate FirstProvider(providers: seq<Provider>, uuid: string, k: nat) {
    k < |providers| && providers[k].uuid == uuid && forall i :: 0 <= i < k ==> providers[i].uuid != uuid
  }

  /** Lower-case text without its last dot, if it has one. */
  ghost predicate WithoutDot(lowered: string, domain: string) {
    lowered == domain + "." || (lowered == domain && forall front :: lowered != front + ".")
  }

  /** The domain asked for, at the service asked for or the only one there is; valid and held by no lease. */
  ghost predicate ShowsDomain(env: Environment, draft: Draft, e: PlanEntry) {
    var asked, service := Trim(draft.customDomain.GetOr("")), Trim(draft.customDomainServiceName.GetOr(""));
    && (if asked == "" then e.customDomain == None && e.customDomainServiceName == None
        else
          && (exists domain :: WithoutDot(env.lower(asked), domain) && e.customDomain == NonEmpty(domain))
          && (|e.serviceNames| == 0 ==> e.customDomainServiceName == None)
          && (|e.serviceNames| == 1 ==> e.customDomainServiceName == Some(e.serviceNames[0]))
          && (|e.serviceNames| > 1 ==> service in e.serviceNames && e.customDomainServiceName == Some(service)))
    && (match e.customDomain
        case None => e.customDomainWarning == NonEmpty(draft.customDomainWarning.GetOr(""))
        case Some(domain) =>
          && env.validateDomain(domain).error == None && !env.findLease(domain).AttachedTo?
          && e.customDomainWarning == NonEmpty(env.validateDomain(domain).warning.GetOr("")))
  }

  /** Everything an entry says is true of its draft, next to the entries before it. */
  ghost predicate Tells(env: Environment, draft: Draft, before: seq<PlanEntry>, e: PlanEntry) {
    && NamedNext(draft.appName, env.liveNames, Names(before), e.appName)
    && ShowsManifest(env, draft, e) && ShowsPrice(env, draft, e) && ShowsProvider(env, e) && ShowsDomain(env, draft, e)
  }

  // ------------------------------------------------------------- entries tell the truth

  lemma {:induction false} NamesPrepend(s: Service, services: seq<Service>, names: seq<string>)
    requires NamesOf(services, names)
    ensures NamesOf([s] + services, (if s.name == "" then [] else [s.name]) + names)
  {
    var own := if s.name == "" then [] else [s.name];
    if services == [] {
      assert ([s] + services)[..0] == [] && (own + names)[..|own|] == own;
      assert s.name != "" ==> own[..0] == [];
    } else {
      var last := |services| - 1;
      assert ([s] + services)[..last + 1] == [s] + services[..last];
      if services[last].name == "" {
        NamesPrepend(s, services[..last], names);
      } else {
        NamesPrepend(s, services[..last], names[..|names| - 1]);
        assert (own + names)[..|own + names| - 1] == own + names[..|names| - 1];
      }
    }
  }

  lemma {:induction false} ServiceNamesAre(services: seq<Service>)
    ensures NamesOf(services, ServiceNames(services))
  {
    if services != [] {
      ServiceNamesAre(services[1..]);
      NamesPrepend(services[0], services[1..], ServiceNames(services[1..]));
      assert services == [services[0]] + services[1..];
    }
  }

  /** Two names come from two services, and every name that is visible is among them. */
  lemma {:induction false} NamesTell(services: seq<Service>, names: seq<string>)
    requires NamesOf(services, names)
    ensures names != [] ==> exists i :: 0 <= i < |services| && services[i].name != ""
    ensures |names| > 1 ==> SeveralNamed(services)
    ensures "" !in names && forall s :: s in services && s.name != "" ==> s.name in names
  {
    if services != [] {
      var last := |services| - 1;
      var front := services[..last];
      assert services == front + [services[last]];
      if services[last].name == "" {
        NamesTell(front, names);
      } else {
        NamesTell(front, names[..|names| - 1]);
        assert names == names[..|names| - 1] + [names[|names| - 1]];
      }
      assert forall i :: 0 <= i < last ==> front[i] == services[i];
    }
  }

  lemma {:induction false} ProviderIsFirst(providers: seq<Provider>, uuid: string) returns (k: nat)
    ensures match FindProvider(providers, uuid)
            case Some(p) => FirstProvider(providers, uuid, k) && k < |providers| && p == providers[k]
            case None => forall i :: 0 <= i < |providers| ==> providers[i].uuid != uuid
  {
    k := 0;
    if providers != [] && providers[0].uuid != uuid {
      k := ProviderIsFirst(providers[1..], uuid);
      k := k + 1;
    }
  }

  lemma DotIsStripped(lowered: string)
    ensures WithoutDot(lowered, StripDot(lowered))
  {
    if lowered != "" && lowered[|lowered| - 1] == '.' {
      assert lowered == lowered[..|lowered| - 1] + ".";
    } else {
      forall front ensures lowered != front + "." {
        assert (front + ".")[|front|] == '.';
      }
    }
  }

  lemma ManifestTells(env: Environment, draft: Draft, p: Prepared, e: PlanEntry, w: Option<string>)
    requires ReadManifest(env, draft.payload.bytes) == Ok(Read(p.manifest, p.services))
    requires p.serviceNames == ServiceNames(p.services) && p.manifestBytes == env.encode(p.manifest)
    requires p.manifestFilename == if draft.payload.filename == "" then "manifest.json" else draft.payload.filename
    requires e == Entry(env, p, e.appName, w)
    ensures ShowsManifest(env, draft, e)
  {
    ServiceNamesAre(p.services);
    hide ServiceNames, NamesOf, NonEmpty;
    var parsed := env.parse(p.manifest).value;
    assert parsed == Manifest(None, p.services);
  }

  lemma PriceTells(env: Environment, draft: Draft, p: Prepared, e: PlanEntry, w: Option<string>)
    requires Place(env, draft.size, p.manifest) == Ok(Placement(p.tier, p.requestedSize, p.providerUrl))
    requires e == Entry(env, p, e.appName, w)
    ensures ShowsPrice(env, draft, e) && ShowsProvider(env, e)
  {
    hide Meant, NonEmpty, FirstProvider;
    var k := ResolutionMeans(draft.size, env.tiers, env.lower);
    var i := ProviderIsFirst(env.providers, p.tier.providerUuid);
    hide ResolveSizeOrCheapest, FindProvider;
    var r := ResolveSizeOrCheapest(draft.size, env.tiers, env.lower).value;
    assert Meant(draft.size, env.tiers, env.lower, r, k) && r.tier == p.tier;
  }

  lemma DomainTells(env: Environment, draft: Draft, p: Prepared, e: PlanEntry, w: Option<string>)
    requires Attach(draft.customDomain, draft.customDomainServiceName, p.serviceNames, env.lower)
          == Ok(Attachment(p.customDomain, p.customDomainServiceName))
    requires NamesOf(p.services, p.serviceNames) && p.customDomainWarning == draft.customDomainWarning
    requires CheckDomain(env, p) == Ok(w) && e == Entry(env, p, e.appName, w)
    ensures ShowsDomain(env, draft, e)
  {
    TrimNothing();
    NamesTell(p.services, p.serviceNames);
    hide Trim, StripDot, WithoutDot, NamesOf, SeveralNamed;
    if Trim(draft.customDomain.GetOr("")) != "" {
      DotIsStripped(env.lower(Trim(draft.customDomain.GetOr(""))));
      assert forall i :: 0 <= i < |p.serviceNames| ==> p.serviceNames[i] in p.serviceNames;
    }
  }

  /** The parts of the draft that preparing it copies. */
  lemma MadeCopies(env: Environment, draft: Draft, id: int, p: Prepared, before: seq<PlanEntry>, e: PlanEntry)
    requires MadeFrom(env, e, draft, id, p, before)
    ensures p.manifestFilename == if draft.payload.filename == "" then "manifest.json" else draft.payload.filename
    ensures p.customDomainWarning == draft.customDomainWarning
    ensures AvailableName(draft.appName, env.liveNames, Names(before)) == Ok(e.appName)
  {
    hide AvailableName, ReadManifest, Place, Attach, ServiceNames, CheckDomain, Names, Domains;
  }

  /** An entry and the draft it was made from. */
  lemma MadeTells(env: Environment, draft: Draft, id: int, p: Prepared, before: seq<PlanEntry>, e: PlanEntry)
    requires MadeFrom(env, e, draft, id, p, before)
    ensures Tells(env, draft, before, e) && e.draftIndex == id
  {
    EntryFields(env, draft, id, p, before, e);
    MadeCopies(env, draft, id, p, before, e);
    NameIsNext(draft.appName, env.liveNames, Names(before));
    hide MadeFrom, ShowsManifest, ShowsPrice, ShowsProvider, ShowsDomain, NamesOf, NamedNext, Usable, CheckDomain;
    hide ReadManifest, Place, Attach, AvailableName, Names, Domains;
    var w := CheckDomain(env, p).value;
    ServiceNamesAre(p.services);
    ManifestTells(env, draft, p, e, w);
    PriceTells(env, draft, p, e, w);
    DomainTells(env, draft, p, e, w);
  }

  /** The entry at `i` tells the truth about the draft at `k`, under that draft's identity. */
  ghost predicate TellsOf(env: Environment, drafts: seq<Draft>, k: nat, entries: seq<PlanEntry>, i: nat) {
    && k < |drafts| && i < |entries| && entries[i].draftIndex == Identity(drafts, k)
    && Tells(env, drafts[k], entries[..i], entries[i])
  }

  /** Accepted entries tell the truth about drafts of theirs, in the order of the drafts. */
  lemma {:induction false} AcceptedTell(env: Environment, drafts: seq<Draft>) returns (at: seq<nat>)
    ensures var entries := Accepted(env, drafts);
            && |at| == |entries| && (forall i, j :: 0 <= i < j < |at| ==> at[i] < at[j])
            && forall i :: 0 <= i < |at| ==> TellsOf(env, drafts, at[i], entries, i)
  {
    hide Prepare, Admit, Tells;
    at := [];
    if drafts != [] {
      var last := |drafts| - 1;
      var front := drafts[..last];
      var rest := AcceptedTell(env, front);
      var before, entries := Accepted(env, front), Accepted(env, drafts);
      forall i | 0 <= i < |before| ensures TellsOf(env, drafts, rest[i], entries, i) {
        assert TellsOf(env, front, rest[i], before, i);
        assert entries[..i] == before[..i] && Identity(front, rest[i]) == Identity(drafts, rest[i]);
      }
      assert forall i :: 0 <= i < |rest| ==> rest[i] < last;
      at := rest;
      var id := Identity(drafts, last);
      if Outcome(env, drafts[last], id, before).Ok? {
        var p := Prepare(env, drafts[last], id).value;
        MadeTells(env, drafts[last], id, p, before, entries[|before|]);
        assert entries[..|before|] == before;
        at := rest + [last];
      }
    }
  }

  /** Every entry of a plan tells the truth about a draft of its own, and the entries are in the order of the drafts. */
  lemma PlanTells(env: Environment, drafts: seq<Draft>, partial: bool) returns (at: seq<nat>)
    requires PlanDrafts(env, drafts, partial).Planned?
    ensures var entries := PlanDrafts(env, drafts, partial).plan.content.entries;
            && |at| == |entries| && (forall i, j :: 0 <= i < j < |at| ==> at[i] < at[j])
            && forall i :: 0 <= i < |at| ==> TellsOf(env, drafts, at[i], entries, i)
  {
    hide PlanDrafts, Accepted, TellsOf;
    PlannedIsAccepted(env, drafts, partial);
    at := AcceptedTell(env, drafts);
  }

  // ------------------------------------------------------------- totals add up

  /** Counting services and adding prices up entry by entry. */
  ghost predicate RunningTotals(entries: seq<PlanEntry>, counts: seq<nat>, prices: seq<real>) {
    && |counts| == |prices| == |entries| + 1 && counts[0] == 0 && prices[0] == 0.0
    && forall i :: 0 <= i < |entries| ==>
         && counts[i + 1] == counts[i] + entries[i].serviceCount
         && prices[i + 1] == prices[i] + entries[i].totalPricePerHour
  }

  ghost predicate AddsUp(content: PlanContent) {
    exists counts, prices ::
      && RunningTotals(content.entries, counts, prices)
      && content.totalServiceCount == counts[|content.entries|]
      && content.totalPricePerHour == prices[|content.entries|]
  }

  lemma {:induction false} Totals(entries: seq<PlanEntry>) returns (counts: seq<nat>, prices: seq<real>)
    ensures RunningTotals(entries, counts, prices)
    ensures counts[|entries|] == TotalServices(entries) && prices[|entries|] == TotalPrice(entries)
  {
    if entries == [] {
      counts, prices := [0], [0.0];
    } else {
      var front := entries[..|entries| - 1];
      var c, q := Totals(front);
      counts, prices := c + [TotalServices(entries)], q + [TotalPrice(entries)];
      hide TotalServices, TotalPrice;
      forall i | 0 <= i < |front| ensures entries[i] == front[i] {}
    }
  }

  /** A plan is not empty, adds up, is billed in one denomination, is covered by the balance and carries its hash. */
  lemma PlanAddsUp(env: Environment, drafts: seq<Draft>, partial: bool)
    requires PlanDrafts(env, drafts, partial).Planned?
    ensures var plan := PlanDrafts(env, drafts, partial).plan;
            && plan.content.entries != [] && AddsUp(plan.content) && plan.planHash == env.planHash(plan.content)
            && (forall e :: e in plan.content.entries ==> e.denomSymbol == plan.content.denomSymbol)
            && env.credit.Credits?
            && (plan.content.totalPricePerHour > 0.0 ==> plan.content.totalPricePerHour <= env.credit.amount)
  {
    hide PlanDrafts;
    PlannedStages(env, drafts, partial);
    hide StagesGive;
    var r := PlanDrafts(env, drafts, partial);
    var counts, prices := Totals(r.plan.content.entries);
    hide RunningTotals, TotalServices, TotalPrice;
    FinishTells(env, r.plan.content.entries, r.rejected);
  }

  lemma FinishTells(env: Environment, entries: seq<PlanEntry>, rejected: seq<RejectedDraft>)
    requires Finish(env, entries, rejected).Planned?
    ensures var plan := Finish(env, entries, rejected).plan;
            && plan.content.entries == entries && plan.content.totalServiceCount == TotalServices(entries)
            && plan.content.totalPricePerHour == TotalPrice(entries)
            && entries != [] && plan.planHash == env.planHash(plan.content)
            && (forall e :: e in entries ==> e.denomSymbol == plan.content.denomSymbol)
            && env.credit.Credits?
            && (TotalPrice(entries) > 0.0 ==> TotalPrice(entries) <= env.credit.amount)
  {
    hide TotalServices, TotalPrice;
  }

  // ------------------------------------------------------------- every refusal has its cause

  /** The error tells the truth about the draft, next to the entries before it. */
  ghost predicate Fault(env: Environment, draft: Draft, before: seq<PlanEntry>, error: PlanError) {
    var bytes := draft.payload.bytes;
    var (text, asked) := (env.decode(bytes), Trim(draft.customDomain.GetOr("")));
    match error
    case NameUnusable(requested) =>
      requested == draft.appName && NoNameFree(env, requested, before)
      && !Usable(AppNames.Suffixed(requested, 99), env.liveNames)
    case NamesExhausted(requested) =>
      requested == draft.appName && NoNameFree(env, requested, before)
      && Usable(AppNames.Suffixed(requested, 99), env.liveNames)
    case NotText => text == None
    case EmptyManifest => text.Some? && bytes == []
    case TooLarge => text.Some? && |bytes| > 5120
    case NotJson => text.Some? && 0 < |bytes| <= 5120 && env.parse(text.value) == None
    case BadEnvironment(reason) =>
      text.Some? && env.parse(text.value).Some? && env.parse(text.value).value.envError == Some(reason)
    case NoServices => text.Some? && env.parse(text.value) == Some(Manifest(None, []))
    case CatalogUnavailable => env.tiers == []
    case NoProvider(name) =>
      exists r, k :: Meant(draft.size, env.tiers, env.lower, r, k) && r.tier.skuName == name
                     && Unreachable(env.providers, r.tier.providerUuid)
    case ProviderRefused(reason) =>
      text.Some? && exists r, k, j: nat :: Meant(draft.size, env.tiers, env.lower, r, k)
                     && FirstProvider(env.providers, r.tier.providerUuid, j)
                     && env.providerVerdict(text.value, env.providers[j].apiUrl) == Some(reason)
    case ServiceNameNeeded =>
      && asked != "" && Trim(draft.customDomainServiceName.GetOr("")) == ""
      && text.Some? && env.parse(text.value).Some? && SeveralNamed(env.parse(text.value).value.services)
    case UnknownService(service) =>
      && asked != "" && service == Trim(draft.customDomainServiceName.GetOr(""))
      && text.Some? && env.parse(text.value).Some? && SeveralNamed(env.parse(text.value).value.services)
      && forall s :: s in env.parse(text.value).value.services ==> s.name != service
    case DomainInvalid(reason) =>
      exists domain :: WithoutDot(env.lower(asked), domain) && env.validateDomain(domain).error == Some(reason)
    case DomainAttached(domain) => WithoutDot(env.lower(asked), domain) && env.findLease(domain).AttachedTo?
    case DomainRepeated(domain) =>
      WithoutDot(env.lower(asked), domain) && exists e :: e in before && e.customDomain == Some(domain)
    case _ => false
  }

  ghost predicate NoNameFree(env: Environment, requested: string, before: seq<PlanEntry>) {
    !Free(requested, env.liveNames, Names(before)) && NoneFree(requested, env.liveNames, Names(before), 2, 100)
  }

  ghost predicate SeveralNamed(services: seq<Service>) {
    exists i, j :: 0 <= i < j < |services| && services[i].name != "" && services[j].name != ""
  }

  ghost predicate Unreachable(providers: seq<Provider>, uuid: string) {
    forall k: nat :: FirstProvider(providers, uuid, k) ==> providers[k].apiUrl == ""
  }

  lemma ReadingFault(env: Environment, draft: Draft, before: seq<PlanEntry>)
    ensures var r := ReadManifest(env, draft.payload.bytes); r.Err? ==> Fault(env, draft, before, r.error)
  {
    hide Meant, Unreachable, FirstProvider, Trim, WithoutDot, NoNameFree, SeveralNamed;
  }

  lemma PlacingFault(env: Environment, draft: Draft, before: seq<PlanEntry>, manifest: string)
    requires env.decode(draft.payload.bytes) == Some(manifest)
    ensures var r := Place(env, draft.size, manifest); r.Err? ==> Fault(env, draft, before, r.error)
  {
    hide Meant, Trim, WithoutDot, NoNameFree, SeveralNamed;
    if env.tiers != [] {
      var k := ResolutionMeans(draft.size, env.tiers, env.lower);
      var r := ResolveSizeOrCheapest(draft.size, env.tiers, env.lower).value;
      hide ResolveSizeOrCheapest;
      var j := ProviderIsFirst(env.providers, r.tier.providerUuid);
      hide FindProvider;
      assert Meant(draft.size, env.tiers, env.lower, r, k);
    }
  }

  lemma AttachingFault(env: Environment, draft: Draft, before: seq<PlanEntry>, read: Read)
    requires ReadManifest(env, draft.payload.bytes) == Ok(read)
    ensures var r := Attach(draft.customDomain, draft.customDomainServiceName, ServiceNames(read.services), env.lower);
            r.Err? ==> Fault(env, draft, before, r.error)
  {
    hide Trim, ServiceNames, NamesOf, SeveralNamed;
    TrimNothing();
    ServiceNamesAre(read.services);
    NamesTell(read.services, ServiceNames(read.services));
    ReadIs(env, draft.payload.bytes, read);
    hide ReadManifest, Meant, Unreachable, FirstProvider, WithoutDot, NoNameFree, NormalDomain;
  }

  lemma NameFault(env: Environment, draft: Draft, before: seq<PlanEntry>, used: set<string>)
    requires used <= Names(before)
    ensures var r := AvailableName(draft.appName, env.liveNames, used); r.Err? ==> Fault(env, draft, before, r.error)
  {
    NameIsNext(draft.appName, env.liveNames, used);
    hide AvailableName, Names, Usable, AppNames.Suffixed, Meant, Unreachable, FirstProvider, Trim, WithoutDot;
  }

  /** One draft's refusal tells the truth about it. */
  lemma OutcomeFault(env: Environment, draft: Draft, id: int, before: seq<PlanEntry>)
    ensures var r := Outcome(env, draft, id, before); r.Err? ==> Fault(env, draft, before, r.error)
  {
    ReadingFault(env, draft, before);
    NameFault(env, draft, before, {});
    NameFault(env, draft, before, Names(before));
    hide Fault;
    if ReadManifest(env, draft.payload.bytes).Ok? {
      var read := ReadManifest(env, draft.payload.bytes).value;
      DecodedIs(env, draft.payload.bytes);
      PlacingFault(env, draft, before, read.manifest);
      AttachingFault(env, draft, before, read);
      hide ReadManifest, Place, Attach, AvailableName, Names, Domains, ServiceNames;
      if Prepare(env, draft, id).Ok? {
        DomainFault(env, draft, id, before);
      }
    } else {
      hide ReadManifest, Place, Attach, AvailableName, Names, Domains, ServiceNames;
    }
  }

  lemma ReadIs(env: Environment, bytes: seq<byte>, read: Read)
    requires ReadManifest(env, bytes) == Ok(read)
    ensures env.decode(bytes) == Some(read.manifest) && env.parse(read.manifest).Some?
    ensures env.parse(read.manifest).value.services == read.services
  {
  }

  lemma DecodedIs(env: Environment, bytes: seq<byte>)
    requires ReadManifest(env, bytes).Ok?
    ensures env.decode(bytes) == Some(ReadManifest(env, bytes).value.manifest)
  {
  }

  lemma DomainFault(env: Environment, draft: Draft, id: int, before: seq<PlanEntry>)
    requires Prepare(env, draft, id).Ok?
    ensures var p := Prepare(env, draft, id).value;
            var r := Admit(env, p, before);
            r.Err? ==> p.requestedAppName == draft.appName
                       && (AvailableName(draft.appName, env.liveNames, Names(before)) == Err(r.error)
                           || Fault(env, draft, before, r.error))
  {
    hide AvailableName, ReadManifest, Place, ServiceNames, Meant, Unreachable, FirstProvider, NoNameFree, SeveralNamed;
    TrimNothing();
    hide Trim;
    DotIsStripped(env.lower(Trim(draft.customDomain.GetOr(""))));
    hide StripDot, WithoutDot;
  }

  /** The draft at `n` fails, next to the entries accepted before it. */
  ghost predicate RejectedAt(env: Environment, drafts: seq<Draft>, n: nat, r: RejectedDraft) {
    && n < |drafts| && r.draftIndex == Identity(drafts, n)
    && Outcome(env, drafts[n], r.draftIndex, Accepted(env, drafts[..n])) == Err(r.error)
  }

  lemma RejectedEarlier(env: Environment, drafts: seq<Draft>, n: nat, r: RejectedDraft)
    requires drafts != [] && n < |drafts| - 1
    ensures RejectedAt(env, drafts, n, r) <==> RejectedAt(env, drafts[..|drafts| - 1], n, r)
  {
    hide Outcome;
    assert drafts[..|drafts| - 1][..n] == drafts[..n];
  }

  ghost predicate RejectedSomewhere(env: Environment, drafts: seq<Draft>, r: RejectedDraft) {
    exists n: nat :: RejectedAt(env, drafts, n, r)
  }

  lemma RejectedSplit(env: Environment, drafts: seq<Draft>, r: RejectedDraft)
    requires drafts != []
    ensures RejectedSomewhere(env, drafts, r) <==>
              RejectedSomewhere(env, drafts[..|drafts| - 1], r) || RejectedAt(env, drafts, |drafts| - 1, r)
  {
    hide Outcome, Accepted;
    var front := drafts[..|drafts| - 1];
    if RejectedSomewhere(env, drafts, r) {
      var n: nat :| RejectedAt(env, drafts, n, r);
      if n < |front| {
        RejectedEarlier(env, drafts, n, r);
      }
    }
    if RejectedSomewhere(env, front, r) {
      var n: nat :| RejectedAt(env, front, n, r);
      RejectedEarlier(env, drafts, n, r);
    }
  }

  /** In partial mode exactly the drafts that fail are rejected, each for its own reason. */
  lemma {:induction false} PartialRejects(env: Environment, drafts: seq<Draft>, r: RejectedDraft)
    requires GoodIdentities(drafts)
    ensures var first := PrepareAll(env, drafts, true);
            && first.Going?
            && var second := AdmitAll(env, first.kept, true);
               second.Going? && (r in first.rejected + second.rejected <==> RejectedSomewhere(env, drafts, r))
  {
    hide Prepare, Admit, RejectedSomewhere;
    PartialStages(env, drafts);
    if drafts == [] {
      hide Accepted;
      NothingRejected(env, drafts, r);
    } else {
      var last := |drafts| - 1;
      var front := drafts[..last];
      PrefixIdentities(drafts);
      PartialRejects(env, front, r);
      PartialStages(env, front);
      RejectedSplit(env, drafts, r);
      var id := Identity(drafts, last);
      PrepareKeepsIdentity(env, drafts[last], id);
      var ps := PrepareAll(env, front, true).kept;
      if Prepare(env, drafts[last], id).Ok? {
        AdmitAllStep(env, ps, Prepare(env, drafts[last], id).value, true);
      }
      hide Accepted;
    }
  }

  lemma NothingRejected(env: Environment, drafts: seq<Draft>, r: RejectedDraft)
    requires drafts == []
    ensures !RejectedSomewhere(env, drafts, r)
  {
    hide Outcome, Accepted;
  }

  /** In atomic mode the error is that of a draft that fails, or the identities are bad. */
  lemma {:induction false} AtomicStops(env: Environment, drafts: seq<Draft>) returns (n: nat)
    ensures var first := PrepareAll(env, drafts, false);
            && (first.Stopped? ==>
                  || (first.error == BadIdentity && !GoodIdentities(drafts))
                  || (n < |drafts| && RejectedAt(env, drafts, n, RejectedDraft(Identity(drafts, n), first.error))))
            && (first.Going? ==>
                  var second := AdmitAll(env, first.kept, false);
                  second.Stopped? ==>
                    n < |drafts| && RejectedAt(env, drafts, n, RejectedDraft(Identity(drafts, n), second.error)))
  {
    hide Prepare, Admit;
    n := 0;
    if drafts != [] {
      var last := |drafts| - 1;
      var front := drafts[..last];
      n := AtomicStops(env, front);
      if n < last {
        forall error {
          RejectedEarlier(env, drafts, n, RejectedDraft(Identity(drafts, n), error));
        }
      }
      PrefixIdentities(drafts);
      var id := Identity(drafts, last);
      var stage := PrepareAll(env, front, false);
      if stage.Going? && AdmitAll(env, stage.kept, false).Going? {
        n := last;
        FrontAccepted(env, front);
        if id >= 0 && id !in Identities(front) && Prepare(env, drafts[last], id).Ok? {
          AdmitAllStep(env, stage.kept, Prepare(env, drafts[last], id).value, false);
        }
      } else if stage.Going? {
        if id >= 0 && id !in Identities(front) {
          if Prepare(env, drafts[last], id).Ok? {
            AdmitAllFront(env, stage.kept, Prepare(env, drafts[last], id).value);
          } else {
            n := last;
          }
        }
      }
    }
  }

  lemma FrontAccepted(env: Environment, drafts: seq<Draft>)
    requires PrepareAll(env, drafts, false).Going?
    requires AdmitAll(env, PrepareAll(env, drafts, false).kept, false).Going?
    ensures AdmitAll(env, PrepareAll(env, drafts, false).kept, false).kept == Accepted(env, drafts)
  {
    hide Prepare, Admit;
    AtomicPrepared(env, drafts);
    AtomicAdmitted(env, PrepareAll(env, drafts, false).kept);
    AtomicAccepted(env, drafts, AdmitAll(env, PrepareAll(env, drafts, false).kept, false).kept);
  }

  /** What is set aside: the drafts that are at fault next to some entries accepted before them. */
  ghost predicate AtFault(env: Environment, drafts: seq<Draft>, id: int, error: PlanError) {
    exists n: nat :: n < |drafts| && id == Identity(drafts, n)
                  && Fault(env, drafts[n], Accepted(env, drafts[..n]), error)
  }

  lemma RejectedIsAtFault(env: Environment, drafts: seq<Draft>, n: nat, r: RejectedDraft)
    requires RejectedAt(env, drafts, n, r)
    ensures AtFault(env, drafts, r.draftIndex, r.error)
  {
    hide Outcome, Fault, Accepted;
    OutcomeFault(env, drafts[n], r.draftIndex, Accepted(env, drafts[..n]));
  }

  /** No identity is both accepted and at fault in its place, so the rejected ones are exactly the drafts that fail. */
  lemma PhasesReject(env: Environment, drafts: seq<Draft>, partial: bool)
    requires PrepareAll(env, drafts, partial).Going?
    requires AdmitAll(env, PrepareAll(env, drafts, partial).kept, partial).Going?
    ensures var first := PrepareAll(env, drafts, partial);
            var second := AdmitAll(env, first.kept, partial);
            && (!partial ==> first.rejected + second.rejected == [])
            && (partial ==> forall r ::
                  r in first.rejected + second.rejected <==> RejectedSomewhere(env, drafts, r))
  {
    hide Prepare, Admit, RejectedSomewhere;
    if partial {
      PartialStages(env, drafts);
      forall r {
        PartialRejects(env, drafts, r);
      }
    } else {
      AtomicPrepared(env, drafts);
      AtomicAdmitted(env, PrepareAll(env, drafts, false).kept);
    }
  }

  /** What a refusal of the whole batch claims. `entries` are the ones accepted one by one. */
  ghost predicate Cause(env: Environment, drafts: seq<Draft>, partial: bool, error: PlanError) {
    var entries := Accepted(env, drafts);
    match error
    case NoApps => drafts == []
    case BadIdentity => !GoodIdentities(drafts)
    case NothingLeft => partial && drafts != [] && entries == []
    case MixedDenominations => exists i, j :: 0 <= i < j < |entries| && entries[i].denomSymbol != entries[j].denomSymbol
    case CreditUnverified => env.credit == CreditUnknown
    case TooExpensive =>
      exists counts, prices ::
        && RunningTotals(entries, counts, prices) && env.credit.Credits?
        && prices[|entries|] > 0.0 && env.credit.amount < prices[|entries|]
    case CatalogUnavailable => env.tiers == []
    case _ => !partial && exists n :: 0 <= n < |drafts| && AtFault(env, drafts, Identity(drafts, n), error)
  }

  lemma FinishRefuses(env: Environment, drafts: seq<Draft>, partial: bool, rejected: seq<RejectedDraft>)
    requires drafts != [] && (Accepted(env, drafts) == [] ==> partial)
    ensures var r := Finish(env, Accepted(env, drafts), rejected);
            r.rejected == rejected && (r.Refused? ==> Cause(env, drafts, partial, r.error))
  {
    hide Accepted, AtFault, TotalPrice, TotalServices, RunningTotals;
    var entries := Accepted(env, drafts);
    var counts, prices := Totals(entries);
    if entries != [] && !OneDenomination(entries) {
      var i :| 0 <= i < |entries| && entries[i].denomSymbol != entries[0].denomSymbol;
    }
  }

  /**
   * A planner that refuses says why, and it is so: the cause holds of the batch, of the environment or, in atomic mode,
   * of one of the drafts. Whatever the outcome, each draft set aside is at fault.
   */
  lemma RefusalsAreTrue(env: Environment, drafts: seq<Draft>, partial: bool)
    ensures var r := PlanDrafts(env, drafts, partial);
            && (r.Refused? ==> Cause(env, drafts, partial, r.error))
            && (!partial ==> r.rejected == [])
            && forall x :: x in r.rejected ==> AtFault(env, drafts, x.draftIndex, x.error)
  {
    hide Prepare, Admit, AtFault, RejectedAt, Finish, RunningTotals;
    if drafts == [] || env.tiers == [] {
      return;
    }
    var first := PrepareAll(env, drafts, partial);
    StoppedHasCause(env, drafts, partial);
    if first.Going? && AdmitAll(env, first.kept, partial).Going? {
      PhasesReject(env, drafts, partial);
      PhasesAccept(env, drafts, partial);
      FinishRefuses(env, drafts, partial, first.rejected + AdmitAll(env, first.kept, partial).rejected);
      var rejected := first.rejected + AdmitAll(env, first.kept, partial).rejected;
      assert PlanDrafts(env, drafts, partial).rejected == rejected;
      forall x | x in rejected ensures AtFault(env, drafts, x.draftIndex, x.error) {
        var n: nat :| RejectedAt(env, drafts, n, x);
        RejectedIsAtFault(env, drafts, n, x);
      }
    }
  }

  lemma PhasesAccept(env: Environment, drafts: seq<Draft>, partial: bool)
    requires PrepareAll(env, drafts, partial).Going? && drafts != []
    requires AdmitAll(env, PrepareAll(env, drafts, partial).kept, partial).Going?
    ensures AdmitAll(env, PrepareAll(env, drafts, partial).kept, partial).kept == Accepted(env, drafts)
    ensures Accepted(env, drafts) == [] ==> partial
  {
    hide Prepare, Admit;
    if partial {
      PartialStages(env, drafts);
    } else {
      FrontAccepted(env, drafts);
      AtomicPrepared(env, drafts);
      AtomicAdmitted(env, PrepareAll(env, drafts, false).kept);
    }
  }

  lemma FaultIsOfADraft(env: Environment, drafts: seq<Draft>, id: int, error: PlanError)
    requires AtFault(env, drafts, id, error)
    ensures !error.NoApps? && !error.BadIdentity? && !error.NothingLeft? && !error.MixedDenominations?
    ensures !error.CreditUnverified? && !error.TooExpensive? && (error.CatalogUnavailable? ==> env.tiers == [])
  {
    hide Accepted;
  }

  lemma StoppedHasCause(env: Environment, drafts: seq<Draft>, partial: bool)
    ensures var first := PrepareAll(env, drafts, partial);
            && (first.Stopped? ==> Cause(env, drafts, partial, first.error))
            && (first.Going? && AdmitAll(env, first.kept, partial).Stopped? ==>
                  Cause(env, drafts, partial, AdmitAll(env, first.kept, partial).error))
  {
    hide Prepare, Admit;
    if partial {
      PartialStages(env, drafts);
    } else {
      var n := AtomicStops(env, drafts);
      forall error | n < |drafts| && RejectedAt(env, drafts, n, RejectedDraft(Identity(drafts, n), error))
        ensures Cause(env, drafts, false, error)
      {
        RejectedIsAtFault(env, drafts, n, RejectedDraft(Identity(drafts, n), error));
        FaultIsOfADraft(env, drafts, Identity(drafts, n), error);
      }
    }
  }
}
