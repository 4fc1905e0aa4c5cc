/** Batch deploy planning: entry-local checks first, then names and domains are reserved for the survivors only. */
module BatchPlan {
  import opened Options
  import opened Text
  import opened AppNames
  import opened SkuTiers

  newtype byte = x: int | 0 <= x < 256

  const MAX_PAYLOAD_SIZE := 5 * 1024

  // ------------------------------------------------------------- data

  datatype Payload = Payload(bytes: seq<byte>, filename: string, size: nat, hash: string)

  datatype Draft = Draft(draftIndex: Option<int>, appName: string, payload: Payload, size: Option<string>,
                         customDomain: Option<string>, customDomainServiceName: Option<string>,
                         customDomainWarning: Option<string>)

  datatype Service = Service(name: string, image: string, ports: seq<string>, environmentKeys: seq<string>)

  /** A manifest after JSON parsing: the verdict on its variable names and its service summaries. */
  datatype Manifest = Manifest(envError: Option<string>, services: seq<Service>)

  datatype Provider = Provider(uuid: string, apiUrl: string)

  datatype DomainVerdict = DomainVerdict(error: Option<string>, warning: Option<string>)

  datatype LeaseLookup = Unattached | AttachedTo(leaseUuid: string) | LookupFailed

  datatype Credit = CreditUnknown | Credits(amount: real)

  /** Everything planning reads besides its drafts: the catalogue, the registry and calls it cannot see into. */
  datatype Environment = Environment(
    lower: string -> string,
    decode: seq<byte> -> Option<string>,
    encode: string -> seq<byte>,
    parse: string -> Option<Manifest>,
    providerVerdict: (string, string) -> Option<string>,
    validateDomain: string -> DomainVerdict,
    findLease: string -> LeaseLookup,
    contentHash: seq<byte> -> string,
    planHash: PlanContent -> string,
    liveNames: set<string>,
    tiers: seq<Tier>,
    providers: seq<Provider>,
    credit: Credit)

  datatype Prepared = Prepared(draftIndex: int, requestedAppName: string, requestedSize: Option<string>, tier: Tier,
                               providerUrl: string, manifest: string, manifestBytes: seq<byte>,
                               manifestFilename: string, services: seq<Service>, serviceNames: seq<string>,
                               customDomain: string, customDomainServiceName: string,
                               customDomainWarning: Option<string>)

  datatype PlanEntry = PlanEntry(draftIndex: int, appName: string, size: string, requestedSize: Option<string>,
                                 skuUuid: string, providerUuid: string, providerUrl: string, resources: Spec,
                                 manifest: string, manifestFilename: string, manifestSize: nat, manifestHash: string,
                                 services: seq<Service>, serviceNames: seq<string>, serviceCount: nat,
                                 pricePerServiceHour: real, totalPricePerHour: real, denomSymbol: string,
                                 customDomain: Option<string>, customDomainServiceName: Option<string>,
                                 customDomainWarning: Option<string>)

  /** The part of a plan that its hash covers. */
  datatype PlanContent = PlanContent(entries: seq<PlanEntry>, totalServiceCount: nat, totalPricePerHour: real,
                                     denomSymbol: string)

  datatype Plan = Plan(content: PlanContent, planHash: string)

  datatype PlanError =
    | NoApps | CatalogUnavailable | BadIdentity | NothingLeft | MixedDenominations | CreditUnverified | TooExpensive
    | NameUnusable(requested: string) | NamesExhausted(requested: string)
    | NotText | EmptyManifest | TooLarge | NotJson | BadEnvironment(reason: string) | NoServices
    | NoProvider(tier: string) | ProviderRefused(reason: string)
    | ServiceNameNeeded | UnknownService(service: string)
    | DomainInvalid(reason: string) | DomainAttached(domain: string) | DomainRepeated(domain: string)

  datatype RejectedDraft = RejectedDraft(draftIndex: int, error: PlanError)

  datatype PlanResult =
    | Planned(plan: Plan, rejected: seq<RejectedDraft>)
    | Refused(error: PlanError, rejected: seq<RejectedDraft>)

  // ------------------------------------------------------------- names

  predicate Usable(name: string, live: set<string>) {
    ValidShape(name) && name !in live
  }

  predicate Free(name: string, live: set<string>, used: set<string>) {
    Usable(name, live) && name !in used
  }

  /** The first free name numbered from `n` to 99. */
  function NumberedName(requested: string, live: set<string>, used: set<string>, n: nat): (r: Option<string>)
    requires n <= 100
    ensures r.Some? ==> Free(r.value, live, used)
    decreases 100 - n
  {
    if n > 99 then None
    else if Free(Suffixed(requested, n), live, used) then Some(Suffixed(requested, n))
    else NumberedName(requested, live, used, n + 1)
  }

  function AvailableName(requested: string, live: set<string>, used: set<string>): (r: Result<string, PlanError>)
    ensures r.Ok? ==> Free(r.value, live, used)
    ensures Free(requested, live, used) ==> r == Ok(requested)
  {
    if Free(requested, live, used) then Ok(requested)
    else
      match NumberedName(requested, live, used, 2)
      case Some(name) => Ok(name)
      case None =>
        Err(if Usable(Suffixed(requested, 99), live) then NamesExhausted(requested) else NameUnusable(requested))
  }

  predicate NoneFree(requested: string, live: set<string>, used: set<string>, begin: nat, end: nat) {
    forall m :: begin <= m < end ==> !Free(Suffixed(requested, m), live, used)
  }

  /** The requested name if it is free, else the one with the least number from 2 to 99 that makes it free. */
  predicate NamedNext(requested: string, live: set<string>, used: set<string>, name: string) {
    if Free(requested, live, used) then name == requested
    else
      exists m :: 2 <= m <= 99 && name == Suffixed(requested, m) && Free(name, live, used)
               && NoneFree(requested, live, used, 2, m)
  }

  lemma {:induction false} NumberedIsLeast(requested: string, live: set<string>, used: set<string>, n: nat)
      returns (m: nat)
    requires n <= 100
    ensures n <= m <= 100 && NoneFree(requested, live, used, n, m)
    ensures NumberedName(requested, live, used, n) == if m == 100 then None else Some(Suffixed(requested, m))
    ensures m < 100 ==> Free(Suffixed(requested, m), live, used)
    decreases 100 - n
  {
    hide Suffixed, Free;
    if n > 99 || Free(Suffixed(requested, n), live, used) {
      m := n;
    } else {
      m := NumberedIsLeast(requested, live, used, n + 1);
    }
  }

  /** The name search meets its rule, and fails only when no candidate is free; the last one tells how it failed. */
  lemma NameIsNext(requested: string, live: set<string>, used: set<string>)
    ensures match AvailableName(requested, live, used)
            case Ok(name) => NamedNext(requested, live, used, name)
            case Err(error) =>
              && !Free(requested, live, used) && NoneFree(requested, live, used, 2, 100)
              && error == if Usable(Suffixed(requested, 99), live) then NamesExhausted(requested)
                          else NameUnusable(requested)
  {
    hide Suffixed, Free, Usable;
    var m := NumberedIsLeast(requested, live, used, 2);
  }

  // ------------------------------------------------------------- entry-local checks

  datatype Read = Read(manifest: string, services: seq<Service>)

  function ReadManifest(env: Environment, bytes: seq<byte>): Result<Read, PlanError> {
    match env.decode(bytes)
    case None => Err(NotText)
    case Some(manifest) =>
      if bytes == [] then Err(EmptyManifest)
      else if |bytes| > MAX_PAYLOAD_SIZE then Err(TooLarge)
      else
        match env.parse(manifest)
        case None => Err(NotJson)
        case Some(parsed) =>
          if parsed.envError.Some? then Err(BadEnvironment(parsed.envError.value))
          else if parsed.services == [] then Err(NoServices)
          else Ok(Read(manifest, parsed.services))
  }

  function FindProvider(providers: seq<Provider>, uuid: string): Option<Provider> {
    if providers == [] then None
    else if providers[0].uuid == uuid then Some(providers[0])
    else FindProvider(providers[1..], uuid)
  }

  datatype Placement = Placement(tier: Tier, requestedSize: Option<string>, providerUrl: string)

  /** The tier for a size hint, at a provider that is reachable and accepts the manifest. */
  function Place(env: Environment, size: Option<string>, manifest: string): Result<Placement, PlanError> {
    match ResolveSizeOrCheapest(size, env.tiers, env.lower)
    case None => Err(CatalogUnavailable)
    case Some(resolution) =>
      match FindProvider(env.providers, resolution.tier.providerUuid)
      case None => Err(NoProvider(resolution.tier.skuName))
      case Some(provider) =>
        if provider.apiUrl == "" then Err(NoProvider(resolution.tier.skuName))
        else
          match env.providerVerdict(manifest, provider.apiUrl)
          case Some(reason) => Err(ProviderRefused(reason))
          case None => Ok(Placement(resolution.tier, resolution.requested, provider.apiUrl))
  }

  function StripDot(s: string): string {
    if s != "" && s[|s| - 1] == '.' then s[..|s| - 1] else s
  }

  function NormalDomain(domain: string, lower: string -> string): string {
    if Trim(domain) == "" then "" else StripDot(lower(Trim(domain)))
  }

  function ServiceNames(services: seq<Service>): seq<string> {
    if services == [] then []
    else (if services[0].name == "" then [] else [services[0].name]) + ServiceNames(services[1..])
  }

  datatype Attachment = Attachment(domain: string, service: string)

  function Attach(domain: Option<string>, service: Option<string>, serviceNames: seq<string>, lower: string -> string)
      : Result<Attachment, PlanError> {
    if Trim(domain.GetOr("")) == "" then Ok(Attachment("", ""))
    else
      var normal := NormalDomain(domain.value, lower);
      var wanted := Trim(service.GetOr(""));
      if |serviceNames| > 1 then
        if wanted == "" then Err(ServiceNameNeeded)
        else if wanted !in serviceNames then Err(UnknownService(wanted))
        else Ok(Attachment(normal, wanted))
      else Ok(Attachment(normal, if |serviceNames| == 1 then serviceNames[0] else ""))
  }

  /** All the checks that concern one draft alone; no sibling is looked at. */
  function Prepare(env: Environment, draft: Draft, id: int): Result<Prepared, PlanError> {
    match AvailableName(draft.appName, env.liveNames, {})
    case Err(error) => Err(error)
    case Ok(_) =>
      match ReadManifest(env, draft.payload.bytes)
      case Err(error) => Err(error)
      case Ok(read) =>
        match Place(env, draft.size, read.manifest)
        case Err(error) => Err(error)
        case Ok(place) =>
          var serviceNames := ServiceNames(read.services);
          match Attach(draft.customDomain, draft.customDomainServiceName, serviceNames, env.lower)
          case Err(error) => Err(error)
          case Ok(attachment) =>
            Ok(Prepared(id, draft.appName, place.requestedSize, place.tier, place.providerUrl, read.manifest,
                        env.encode(read.manifest),
                        if draft.payload.filename == "" then "manifest.json" else draft.payload.filename,
                        read.services, serviceNames, attachment.domain, attachment.service,
                        draft.customDomainWarning))
  }

  // ------------------------------------------------------------- reservation

  /** The warning to show, or why the domain cannot be attached. A failed lease lookup does not block. */
  function CheckDomain(env: Environment, p: Prepared): Result<Option<string>, PlanError> {
    if p.customDomain == "" then Ok(p.customDomainWarning)
    else
      var verdict := env.validateDomain(p.customDomain);
      if verdict.error.Some? then Err(DomainInvalid(verdict.error.value))
      else if env.findLease(p.customDomain).AttachedTo? then Err(DomainAttached(p.customDomain))
      else Ok(verdict.warning)
  }

  function Names(entries: seq<PlanEntry>): set<string> {
    set i | 0 <= i < |entries| :: entries[i].appName
  }

  function Domains(entries: seq<PlanEntry>): set<string> {
    set i | 0 <= i < |entries| && entries[i].customDomain.Some? :: entries[i].customDomain.value
  }

  function Entry(env: Environment, p: Prepared, name: string, warning: Option<string>): PlanEntry {
    PlanEntry(p.draftIndex, name, p.tier.skuName, p.requestedSize, p.tier.skuUuid, p.tier.providerUuid, p.providerUrl,
              p.tier.spec, p.manifest, p.manifestFilename, |p.manifestBytes|, env.contentHash(p.manifestBytes),
              p.services, p.serviceNames, |p.services|, p.tier.pricePerHour,
              p.tier.pricePerHour * |p.services| as real, p.tier.denomSymbol, NonEmpty(p.customDomain),
              NonEmpty(p.customDomainServiceName), NonEmpty(warning.GetOr("")))
  }

  /** Gives one prepared draft a name and its domain, next to the entries already admitted. */
  function Admit(env: Environment, p: Prepared, entries: seq<PlanEntry>): Result<PlanEntry, PlanError> {
    match CheckDomain(env, p)
    case Err(error) => Err(error)
    case Ok(warning) =>
      match AvailableName(p.requestedAppName, env.liveNames, Names(entries))
      case Err(error) => Err(error)
      case Ok(name) =>
        if p.customDomain != "" && p.customDomain in Domains(entries) then Err(DomainRepeated(p.customDomain))
        else Ok(Entry(env, p, name, warning))
  }

  // ------------------------------------------------------------- the two phases

  /** A phase in progress: stopped by an error, or going on with what was kept and what was set aside. */
  datatype Stage<T> = Stopped(error: PlanError) | Going(kept: seq<T>, rejected: seq<RejectedDraft>)

  function Identity(drafts: seq<Draft>, i: nat): int
    requires i < |drafts|
  {
    drafts[i].draftIndex.GetOr(i)
  }

  function Identities(drafts: seq<Draft>): (ids: seq<int>)
    ensures |ids| == |drafts|
    ensures forall i :: 0 <= i < |ids| ==> ids[i] == Identity(drafts, i)
  {
    seq(|drafts|, i requires 0 <= i < |drafts| => Identity(drafts, i))
  }

  function Keep<T>(stage: Stage<T>, id: int, outcome: Result<T, PlanError>, partial: bool): Stage<T>
    requires stage.Going?
  {
    match outcome
    case Ok(value) => Going(stage.kept + [value], stage.rejected)
    case Err(error) =>
      if partial then Going(stage.kept, stage.rejected + [RejectedDraft(id, error)]) else Stopped(error)
  }

  function PrepareAll(env: Environment, drafts: seq<Draft>, partial: bool): Stage<Prepared> {
    if drafts == [] then Going([], [])
    else
      var last := |drafts| - 1;
      var stage := PrepareAll(env, drafts[..last], partial);
      var id := Identity(drafts, last);
      if stage.Stopped? then stage
      else if id < 0 || id in Identities(drafts[..last]) then Stopped(BadIdentity)
      else Keep(stage, id, Prepare(env, drafts[last], id), partial)
  }

  function AdmitAll(env: Environment, ps: seq<Prepared>, partial: bool): Stage<PlanEntry> {
    if ps == [] then Going([], [])
    else
      var last := |ps| - 1;
      var stage := AdmitAll(env, ps[..last], partial);
      if stage.Stopped? then stage
      else Keep(stage, ps[last].draftIndex, Admit(env, ps[last], stage.kept), partial)
  }

  function TotalServices(entries: seq<PlanEntry>): nat {
    if entries == [] then 0 else TotalServices(entries[..|entries| - 1]) + entries[|entries| - 1].serviceCount
  }

  function TotalPrice(entries: seq<PlanEntry>): real {
    if entries == [] then 0.0 else TotalPrice(entries[..|entries| - 1]) + entries[|entries| - 1].totalPricePerHour
  }

  predicate OneDenomination(entries: seq<PlanEntry>) {
    forall i :: 0 <= i < |entries| ==> entries[i].denomSymbol == entries[0].denomSymbol
  }

  function Finish(env: Environment, entries: seq<PlanEntry>, rejected: seq<RejectedDraft>): PlanResult {
    if entries == [] then Refused(NothingLeft, rejected)
    else if !OneDenomination(entries) then Refused(MixedDenominations, rejected)
    else if env.credit.CreditUnknown? then Refused(CreditUnverified, rejected)
    else if TotalPrice(entries) > 0.0 && env.credit.amount < TotalPrice(entries) then Refused(TooExpensive, rejected)
    else
      var content := PlanContent(entries, TotalServices(entries), TotalPrice(entries), entries[0].denomSymbol);
      Planned(Plan(content, env.planHash(content)), rejected)
  }

  /** The whole planner. `partial` drops bad drafts by identity; otherwise the first bad draft refuses the batch. */
  function PlanDrafts(env: Environment, drafts: seq<Draft>, partial: bool): PlanResult {
    if drafts == [] then Refused(NoApps, [])
    else if env.tiers == [] then Refused(CatalogUnavailable, [])
    else
      match PrepareAll(env, drafts, partial)
      case Stopped(error) => Refused(error, [])
      case Going(ps, early) =>
        if ps == [] then Refused(NothingLeft, early)
        else
          match AdmitAll(env, ps, partial)
          case Stopped(error) => Refused(error, [])
          case Going(entries, late) => Finish(env, entries, early + late)
  }

  /** The plan turned back into drafts, for planning again right before broadcast. */
  function ToDraft(env: Environment, e: PlanEntry): Draft {
    var bytes := env.encode(e.manifest);
    Draft(Some(e.draftIndex), e.appName, Payload(bytes, e.manifestFilename, |bytes|, e.manifestHash),
          Some(e.requestedSize.GetOr(e.size)), e.customDomain, e.customDomainServiceName, e.customDomainWarning)
  }

  function ToDrafts(env: Environment, entries: seq<PlanEntry>): (drafts: seq<Draft>)
    ensures |drafts| == |entries|
    ensures forall i :: 0 <= i < |drafts| ==> drafts[i] == ToDraft(env, entries[i])
  {
    seq(|entries|, i requires 0 <= i < |entries| => ToDraft(env, entries[i]))
  }
}
