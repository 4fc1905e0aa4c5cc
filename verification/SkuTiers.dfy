/** The deployable tiers: one per configured name, priced by the cheapest provider, and how a size hint picks one. */
module SkuTiers {
  import opened Options
  import opened Text

  datatype Unit = PerHour | PerDay | UnknownUnit

  /** A price already converted to display units. */
  datatype Coin = Coin(amount: real, symbol: string)

  datatype Sku = Sku(name: string, uuid: string, providerUuid: string, basePrice: Option<Coin>, unit: Unit)

  datatype Spec = Spec(cores: real, ramMB: real, diskGB: real)

  datatype NamedSpec = NamedSpec(name: string, spec: Spec)

  datatype Tier = Tier(skuName: string, skuUuid: string, providerUuid: string, spec: Spec,
                       pricePerHour: real, denomSymbol: string)

  datatype Fallback = Exact | CheapestOmitted | CheapestUnavailable

  datatype SizeResolution = SizeResolution(tier: Tier, fallback: Fallback, requested: Option<string>)

  // ------------------------------------------------------------- prices

  function HourlyPrice(sku: Sku): real {
    match sku.basePrice
    case None => 0.0
    case Some(coin) => if sku.unit == PerDay then coin.amount / 24.0 else coin.amount
  }

  /** `k` is the first position holding the least value of `prices`. */
  ghost predicate FirstLeast(prices: seq<real>, k: nat) {
    && k < |prices|
    && (forall j :: 0 <= j < |prices| ==> prices[k] <= prices[j])
    && (forall j :: 0 <= j < k ==> prices[k] < prices[j])
  }

  lemma FirstLeastUnique(prices: seq<real>, k: nat, m: nat)
    requires FirstLeast(prices, k) && FirstLeast(prices, m)
    ensures k == m
  {
    assert prices[k] <= prices[m] && prices[m] <= prices[k];
  }

  function LeastIndex(prices: seq<real>): (k: nat)
    requires prices != []
    ensures FirstLeast(prices, k)
  {
    var last := |prices| - 1;
    if last == 0 then 0
    else
      var k := LeastIndex(prices[..last]);
      if prices[last] < prices[k] then last else k
  }

  function TierPrices(tiers: seq<Tier>): (prices: seq<real>)
    ensures |prices| == |tiers|
  {
    seq(|tiers|, i requires 0 <= i < |tiers| => tiers[i].pricePerHour)
  }

  function CheapestTier(tiers: seq<Tier>): Tier
    requires tiers != []
  {
    tiers[LeastIndex(TierPrices(tiers))]
  }

  /** The scan of `getCheapestTier`: the first tier among those of least price. */
  method GetCheapestTier(tiers: seq<Tier>) returns (cheapest: Tier)
    requires tiers != []
    ensures cheapest == CheapestTier(tiers)
  {
    cheapest := tiers[0];
    ghost var at := 0;
    for i := 1 to |tiers|
      invariant 0 <= at < i && cheapest == tiers[at]
      invariant FirstLeast(TierPrices(tiers)[..i], at)
    {
      if tiers[i].pricePerHour < cheapest.pricePerHour {
        cheapest, at := tiers[i], i;
      }
    }
    FirstLeastUnique(TierPrices(tiers), at, LeastIndex(TierPrices(tiers)));
  }

  // ------------------------------------------------------------- size hints

  predicate EndsWith(s: string, suffix: string) {
    |suffix| <= |s| && s[|s| - |suffix|..] == suffix
  }

  datatype Hint = WholeName(text: string) | Suffix(text: string)

  predicate Matches(tier: Tier, hint: Hint, lower: string -> string) {
    match hint
    case WholeName(text) => lower(tier.skuName) == text
    case Suffix(text) => EndsWith(lower(tier.skuName), text)
  }

  function FindTier(tiers: seq<Tier>, hint: Hint, lower: string -> string): (r: Option<Tier>)
    ensures r.Some? ==> r.value in tiers && Matches(r.value, hint, lower)
    ensures r.None? ==> forall t :: t in tiers ==> !Matches(t, hint, lower)
  {
    if tiers == [] then None
    else if Matches(tiers[0], hint, lower) then Some(tiers[0])
    else FindTier(tiers[1..], hint, lower)
  }

  /** Full name first, then with the `docker-` prefix added, then by suffix; never by case. */
  function ResolveSizeName(rawSize: string, tiers: seq<Tier>, lower: string -> string): (r: Option<Tier>)
    ensures r.Some? ==> r.value in tiers
  {
    var s := lower(Trim(rawSize));
    var byName := FindTier(tiers, WholeName(s), lower);
    if byName.Some? then byName
    else
      var byPrefix := FindTier(tiers, WholeName("docker-" + s), lower);
      if byPrefix.Some? then byPrefix else FindTier(tiers, Suffix("-" + s), lower)
  }

  function ResolveSizeOrCheapest(rawSize: Option<string>, tiers: seq<Tier>, lower: string -> string)
      : (r: Option<SizeResolution>)
    ensures r.None? <==> tiers == []
    ensures r.Some? ==> r.value.tier in tiers
  {
    if tiers == [] then None
    else
      var trimmed := if rawSize.Some? then Trim(rawSize.value) else "";
      if trimmed == "" then Some(SizeResolution(CheapestTier(tiers), CheapestOmitted, None))
      else
        match ResolveSizeName(trimmed, tiers, lower)
        case Some(tier) => Some(SizeResolution(tier, Exact, None))
        case None => Some(SizeResolution(CheapestTier(tiers), CheapestUnavailable, Some(trimmed)))
  }

  /** The hint names the tier at `k`, by its whole name or, with a hyphen, by the end of it; no earlier one so. */
  ghost predicate FirstNamed(tiers: seq<Tier>, name: string, lower: string -> string, k: nat) {
    && k < |tiers| && lower(tiers[k].skuName) == name
    && forall i :: 0 <= i < k ==> lower(tiers[i].skuName) != name
  }

  ghost predicate FirstEnding(tiers: seq<Tier>, ending: string, lower: string -> string, k: nat) {
    && k < |tiers| && (exists front :: lower(tiers[k].skuName) == front + ending)
    && forall i, front :: 0 <= i < k ==> lower(tiers[i].skuName) != front + ending
  }

  ghost predicate FirstCheapest(tiers: seq<Tier>, k: nat) {
    && k < |tiers|
    && (forall i :: 0 <= i < |tiers| ==> tiers[k].pricePerHour <= tiers[i].pricePerHour)
    && forall i :: 0 <= i < k ==> tiers[k].pricePerHour < tiers[i].pricePerHour
  }

  /** How a size hint is meant to be read, as a rule on the catalogue alone. */
  ghost predicate Meant(size: Option<string>, tiers: seq<Tier>, lower: string -> string, r: SizeResolution, k: nat) {
    var hint := Trim(size.GetOr(""));
    && k < |tiers| && r.tier == tiers[k]
    && if hint == "" then FirstCheapest(tiers, k) && r.fallback == CheapestOmitted && r.requested == None
       else
         var name := lower(hint);
         match r.fallback
         case Exact =>
           && r.requested == None
           && (|| FirstNamed(tiers, name, lower, k)
               || (FirstNamed(tiers, "docker-" + name, lower, k) && forall i :: !FirstNamed(tiers, name, lower, i))
               || (FirstEnding(tiers, "-" + name, lower, k)
                   && forall i :: !FirstNamed(tiers, name, lower, i)
                                  && !FirstNamed(tiers, "docker-" + name, lower, i)))
         case CheapestUnavailable =>
           && r.requested == Some(hint) && FirstCheapest(tiers, k)
           && forall i :: !FirstNamed(tiers, name, lower, i) && !FirstNamed(tiers, "docker-" + name, lower, i)
                          && !FirstEnding(tiers, "-" + name, lower, i)
         case CheapestOmitted => false
  }

  lemma {:induction false} FindTierFirst(tiers: seq<Tier>, hint: Hint, lower: string -> string) returns (k: nat)
    ensures k <= |tiers| && (forall i :: 0 <= i < k ==> !Matches(tiers[i], hint, lower))
    ensures FindTier(tiers, hint, lower) == if k == |tiers| then None else Some(tiers[k])
    ensures k < |tiers| ==> Matches(tiers[k], hint, lower)
  {
    hide Matches;
    if tiers == [] || Matches(tiers[0], hint, lower) {
      k := 0;
    } else {
      k := FindTierFirst(tiers[1..], hint, lower);
      k := k + 1;
    }
  }

  lemma EndsWithMeans(s: string, suffix: string)
    ensures EndsWith(s, suffix) <==> exists front :: s == front + suffix
  {
    if EndsWith(s, suffix) {
      assert s == s[..|s| - |suffix|] + suffix;
    }
  }

  lemma FoundWhole(tiers: seq<Tier>, name: string, lower: string -> string) returns (k: nat)
    ensures match FindTier(tiers, WholeName(name), lower)
            case Some(tier) => k < |tiers| && FirstNamed(tiers, name, lower, k) && tier == tiers[k]
            case None => forall i :: !FirstNamed(tiers, name, lower, i)
  {
    k := FindTierFirst(tiers, WholeName(name), lower);
    hide FindTier;
    assert forall i :: 0 <= i < |tiers| ==> (Matches(tiers[i], WholeName(name), lower) <==>
                                             lower(tiers[i].skuName) == name);
  }

  lemma FoundEnding(tiers: seq<Tier>, ending: string, lower: string -> string) returns (k: nat)
    ensures match FindTier(tiers, Suffix(ending), lower)
            case Some(tier) => k < |tiers| && FirstEnding(tiers, ending, lower, k) && tier == tiers[k]
            case None => forall i :: !FirstEnding(tiers, ending, lower, i)
  {
    k := FindTierFirst(tiers, Suffix(ending), lower);
    hide FindTier, EndsWith;
    forall i | 0 <= i < |tiers|
      ensures Matches(tiers[i], Suffix(ending), lower) <==> exists front :: lower(tiers[i].skuName) == front + ending
    {
      EndsWithMeans(lower(tiers[i].skuName), ending);
    }
  }

  lemma CheapestIsFirst(tiers: seq<Tier>) returns (k: nat)
    requires tiers != []
    ensures k < |tiers| && FirstCheapest(tiers, k) && CheapestTier(tiers) == tiers[k]
  {
    k := LeastIndex(TierPrices(tiers));
    assert forall i :: 0 <= i < |tiers| ==> TierPrices(tiers)[i] == tiers[i].pricePerHour;
  }

  /** Every resolution is the one the rule on the catalogue gives. */
  lemma ResolutionMeans(size: Option<string>, tiers: seq<Tier>, lower: string -> string) returns (k: nat)
    requires tiers != []
    ensures Meant(size, tiers, lower, ResolveSizeOrCheapest(size, tiers, lower).value, k)
  {
    hide FindTier, FirstNamed, FirstEnding, FirstCheapest, CheapestTier;
    k := CheapestIsFirst(tiers);
    var hint := Trim(size.GetOr(""));
    TrimNothing();
    if hint != "" {
      TrimIdempotent(size.value);
      hide Trim;
      var name := lower(hint);
      var whole := FoundWhole(tiers, name, lower);
      var prefixed := FoundWhole(tiers, "docker-" + name, lower);
      var ending := FoundEnding(tiers, "-" + name, lower);
      if FindTier(tiers, WholeName(name), lower).Some? {
        k := whole;
      } else if FindTier(tiers, WholeName("docker-" + name), lower).Some? {
        k := prefixed;
      } else if FindTier(tiers, Suffix("-" + name), lower).Some? {
        k := ending;
      }
    }
  }

  /** Tier names are trimmed and differ even when case is ignored. */
  ghost predicate WellNamed(tiers: seq<Tier>, lower: string -> string) {
    && (forall i :: 0 <= i < |tiers| ==> Trim(tiers[i].skuName) == tiers[i].skuName)
    && (forall i, j :: 0 <= i < j < |tiers| ==> lower(tiers[i].skuName) != lower(tiers[j].skuName))
  }

  /** Lower-casing neither invents nor removes all characters. */
  ghost predicate LowerKeepsEmpty(lower: string -> string) {
    forall s :: lower(s) == "" <==> s == ""
  }

  lemma FindTierByName(tiers: seq<Tier>, lower: string -> string, k: nat)
    requires k < |tiers|
    requires forall i :: 0 <= i < k ==> lower(tiers[i].skuName) != lower(tiers[k].skuName)
    ensures FindTier(tiers, WholeName(lower(tiers[k].skuName)), lower) == Some(tiers[k])
  {
    if k > 0 {
      FindTierByName(tiers[1..], lower, k - 1);
    }
  }

  /** An unavailable hint is unavailable again, with the same substitute and the same notice. */
  lemma SubstitutionRepeats(rawSize: Option<string>, tiers: seq<Tier>, lower: string -> string)
    requires tiers != []
    ensures var first := ResolveSizeOrCheapest(rawSize, tiers, lower).value;
            first.requested.Some? ==>
              ResolveSizeOrCheapest(first.requested, tiers, lower) == Some(first)
  {
    hide ResolveSizeName, CheapestTier;
    if rawSize.Some? {
      TrimIdempotent(rawSize.value);
    }
  }

  /** Under distinct names, a tier's own non-empty name resolves to that tier. */
  lemma OwnNameResolves(tier: Tier, tiers: seq<Tier>, lower: string -> string)
    requires tier in tiers && WellNamed(tiers, lower) && tier.skuName != ""
    ensures ResolveSizeOrCheapest(Some(tier.skuName), tiers, lower) == Some(SizeResolution(tier, Exact, None))
  {
    var k :| 0 <= k < |tiers| && tiers[k] == tier;
    forall i | 0 <= i < k ensures lower(tiers[i].skuName) != lower(tiers[k].skuName) {}
    FindTierByName(tiers, lower, k);
    assert Trim(tier.skuName) == tier.skuName;
  }

  /** A hint with visible characters never matches a tier without a name. */
  lemma MatchIsNamed(hint: string, tiers: seq<Tier>, lower: string -> string)
    requires LowerKeepsEmpty(lower) && Trim(hint) != ""
    ensures var found := ResolveSizeName(hint, tiers, lower); found.Some? ==> found.value.skuName != ""
  {
    assert lower(Trim(hint)) != "";
    assert lower("") == "";
  }

  /**
   * The tier a hint resolved to is resolved again from its own name, without a substitution notice;
   * and an unavailable hint resolves again to the same substitute with the same notice.
   */
  lemma ResolutionRepeats(rawSize: Option<string>, tiers: seq<Tier>, lower: string -> string)
    requires tiers != [] && WellNamed(tiers, lower) && LowerKeepsEmpty(lower)
    ensures var first := ResolveSizeOrCheapest(rawSize, tiers, lower).value;
            var again := ResolveSizeOrCheapest(Some(first.requested.GetOr(first.tier.skuName)), tiers, lower).value;
            again.tier == first.tier && again.requested == first.requested
  {
    var trimmed := if rawSize.Some? then Trim(rawSize.value) else "";
    if rawSize.Some? {
      TrimIdempotent(rawSize.value);
    }
    if trimmed == "" {
      CheapestRepeats(tiers, lower);
    } else {
      var found := ResolveSizeName(trimmed, tiers, lower);
      if found.Some? {
        MatchIsNamed(trimmed, tiers, lower);
        OwnNameResolves(found.value, tiers, lower);
      }
    }
  }

  lemma CheapestRepeats(tiers: seq<Tier>, lower: string -> string)
    requires tiers != [] && WellNamed(tiers, lower)
    ensures var again := ResolveSizeOrCheapest(Some(CheapestTier(tiers).skuName), tiers, lower).value;
            again.tier == CheapestTier(tiers) && again.requested == None
  {
    var tier := CheapestTier(tiers);
    if tier.skuName != "" {
      OwnNameResolves(tier, tiers, lower);
    }
  }

  /** Names that differ only in case break this: the second tier's name resolves to the first tier. */
  lemma CaseCollisionDrifts(lower: string -> string)
    requires lower("Small") == lower("small") && lower("Small") != ""
    ensures var spec := Spec(1.0, 1.0, 1.0);
            var tiers := [Tier("small", "sku-1", "p", spec, 2.0, "PWR"), Tier("Small", "sku-2", "p", spec, 1.0, "PWR")];
            && ResolveSizeOrCheapest(None, tiers, lower) == Some(SizeResolution(tiers[1], CheapestOmitted, None))
            && ResolveSizeOrCheapest(Some("Small"), tiers, lower).value.tier == tiers[0]
  {
    var spec := Spec(1.0, 1.0, 1.0);
    var tiers := [Tier("small", "sku-1", "p", spec, 2.0, "PWR"), Tier("Small", "sku-2", "p", spec, 1.0, "PWR")];
    assert FirstLeast(TierPrices(tiers), 1);
    FirstLeastUnique(TierPrices(tiers), 1, LeastIndex(TierPrices(tiers)));
    assert TrimStart("Small") == "Small" && TrimEnd("Small") == "Small";
    FindTierByName(tiers, lower, 0);
    assert lower(tiers[0].skuName) == lower(Trim(Trim("Small")));
  }

  // ------------------------------------------------------------- catalogue

  /** The SKUs of one name, in the chain's order. */
  function Named(skus: seq<Sku>, name: string): (named: seq<Sku>)
    ensures forall o :: o in named <==> o in skus && o.name == name
  {
    if skus == [] then []
    else
      var last := |skus| - 1;
      Named(skus[..last], name) + (if skus[last].name == name then [skus[last]] else [])
  }

  function Priced(candidates: seq<Sku>): (priced: seq<Sku>)
    ensures forall o :: o in priced <==> o in candidates && o.basePrice.Some?
  {
    if candidates == [] then []
    else (if candidates[0].basePrice.Some? then [candidates[0]] else []) + Priced(candidates[1..])
  }

  function PricedOffers(skus: seq<Sku>, name: string): (offers: seq<Sku>)
    ensures forall o :: o in offers <==> o in skus && o.name == name && o.basePrice.Some?
  {
    Priced(Named(skus, name))
  }

  function OfferPrices(offers: seq<Sku>): (prices: seq<real>)
    ensures |prices| == |offers|
  {
    seq(|offers|, i requires 0 <= i < |offers| => HourlyPrice(offers[i]))
  }

  function TierFrom(named: NamedSpec, offers: seq<Sku>): (t: Tier)
    requires offers != [] && forall o :: o in offers ==> o.name == named.name && o.basePrice.Some?
    ensures t.skuName == named.name && t.spec == named.spec
  {
    var chosen := offers[LeastIndex(OfferPrices(offers))];
    Tier(chosen.name, chosen.uuid, chosen.providerUuid, named.spec, HourlyPrice(chosen), chosen.basePrice.value.symbol)
  }

  /** Tiers in the order of the configured specs; a name without a priced SKU is dropped. */
  function ResolvedTiers(specs: seq<NamedSpec>, skus: seq<Sku>): seq<Tier> {
    if specs == [] then []
    else
      var last := specs[|specs| - 1];
      var offers := PricedOffers(skus, last.name);
      ResolvedTiers(specs[..|specs| - 1], skus) + (if offers == [] then [] else [TierFrom(last, offers)])
  }

  /** A price by the day is shared out over 24 hours, any other price is by the hour. */
  predicate ChargesTheSame(sku: Sku, pricePerHour: real) {
    sku.basePrice.Some? && pricePerHour * (if sku.unit == PerDay then 24.0 else 1.0) == sku.basePrice.value.amount
  }

  /** Of SKUs that all have the name, or all have a price, the selection drops none and keeps their order. */
  lemma {:induction false} SelectionKeepsAll(skus: seq<Sku>, name: string)
    ensures (forall o :: o in skus ==> o.name == name) ==> Named(skus, name) == skus
    ensures (forall o :: o in skus ==> o.basePrice.Some?) ==> Priced(skus) == skus
  {
    NamedKeepsAll(skus, name);
    PricedKeepsAll(skus);
  }

  lemma {:induction false} NamedKeepsAll(skus: seq<Sku>, name: string)
    ensures (forall o :: o in skus ==> o.name == name) ==> Named(skus, name) == skus
  {
    if skus != [] {
      var last := |skus| - 1;
      assert skus == skus[..last] + [skus[last]];
      NamedKeepsAll(skus[..last], name);
    }
  }

  lemma {:induction false} PricedKeepsAll(skus: seq<Sku>)
    ensures (forall o :: o in skus ==> o.basePrice.Some?) ==> Priced(skus) == skus
  {
    if skus != [] {
      assert skus == [skus[0]] + skus[1..];
      PricedKeepsAll(skus[1..]);
    }
  }

  ghost predicate Grouped(skusByName: map<string, seq<Sku>>, skus: seq<Sku>) {
    && (forall n :: n in skusByName ==> skusByName[n] == Named(skus, n))
    && (forall n :: n !in skusByName ==> Named(skus, n) == [])
  }

  method GroupByName(skus: seq<Sku>) returns (skusByName: map<string, seq<Sku>>)
    ensures Grouped(skusByName, skus)
  {
    skusByName := map[];
    for i := 0 to |skus|
      invariant Grouped(skusByName, skus[..i])
    {
      var sku := skus[i];
      assert skus[..i + 1][..i] == skus[..i];
      var list := if sku.name in skusByName then skusByName[sku.name] else [];
      skusByName := skusByName[sku.name := list + [sku]];
    }
    assert skus[..|skus|] == skus;
  }

  method ChooseOffer(priced: seq<Sku>) returns (chosen: Sku, chosenPrice: real)
    requires priced != []
    ensures chosen == priced[LeastIndex(OfferPrices(priced))] && chosenPrice == HourlyPrice(chosen)
  {
    chosen, chosenPrice := priced[0], HourlyPrice(priced[0]);
    ghost var at := 0;
    for i := 1 to |priced|
      invariant 0 <= at < i && chosen == priced[at] && chosenPrice == HourlyPrice(chosen)
      invariant FirstLeast(OfferPrices(priced)[..i], at)
    {
      var p := HourlyPrice(priced[i]);
      if p < chosenPrice {
        chosen, chosenPrice, at := priced[i], p, i;
      }
    }
    FirstLeastUnique(OfferPrices(priced), at, LeastIndex(OfferPrices(priced)));
  }

  /** The symbol of the first tier that has one. */
  function FirstSymbol(tiers: seq<Tier>): (symbol: string)
    ensures symbol == "" <==> forall i :: 0 <= i < |tiers| ==> tiers[i].denomSymbol == ""
    ensures symbol == "" || exists k :: 0 <= k < |tiers| && tiers[k].denomSymbol == symbol
                                      && forall i :: 0 <= i < k ==> tiers[i].denomSymbol == ""
  {
    if tiers == [] then ""
    else if tiers[0].denomSymbol != "" then tiers[0].denomSymbol
    else FirstSymbol(tiers[1..])
  }

  lemma NothingResolved(skus: seq<Sku>)
    ensures ResolvedTiers([], skus) == [] && FirstSymbol([]) == ""
  {
  }

  lemma {:induction false} FirstSymbolGrows(tiers: seq<Tier>, tier: Tier)
    ensures FirstSymbol(tiers + [tier]) == if FirstSymbol(tiers) == "" then tier.denomSymbol else FirstSymbol(tiers)
  {
    if tiers == [] {
      assert [tier][1..] == [];
    } else {
      assert (tiers + [tier])[1..] == tiers[1..] + [tier];
      FirstSymbolGrows(tiers[1..], tier);
    }
  }

  lemma NextResolved(specs: seq<NamedSpec>, skus: seq<Sku>, k: nat)
    requires k < |specs|
    ensures var offers := PricedOffers(skus, specs[k].name);
            ResolvedTiers(specs[..k + 1], skus)
              == if offers == [] then ResolvedTiers(specs[..k], skus)
                 else ResolvedTiers(specs[..k], skus) + [TierFrom(specs[k], offers)]
  {
    assert specs[..k + 1][..k] == specs[..k];
    hide PricedOffers, TierFrom;
  }

  /** The tier of a configured name: the first cheapest of its priced offers, if there is any. */
  method ResolveTier(named: NamedSpec, skusByName: map<string, seq<Sku>>, ghost skus: seq<Sku>)
      returns (tier: Option<Tier>)
    requires Grouped(skusByName, skus)
    ensures var offers := PricedOffers(skus, named.name);
            tier == if offers == [] then None else Some(TierFrom(named, offers))
  {
    var candidates := if named.name in skusByName then skusByName[named.name] else [];
    var priced := Priced(candidates);
    assert priced == PricedOffers(skus, named.name);
    if priced == [] {
      return None;
    }
    var chosen, chosenPrice := ChooseOffer(priced);
    assert chosen in priced;
    return Some(Tier(chosen.name, chosen.uuid, chosen.providerUuid, named.spec, chosenPrice,
                     chosen.basePrice.value.symbol));
  }

  method ResolveSkuTiers(specs: seq<NamedSpec>, skus: seq<Sku>) returns (tiers: seq<Tier>, denomSymbol: string)
    ensures tiers == ResolvedTiers(specs, skus) && denomSymbol == FirstSymbol(tiers)
  {
    hide FirstSymbol, PricedOffers, TierFrom, ResolvedTiers, Grouped;
    var skusByName := GroupByName(skus);
    NothingResolved(skus);
    tiers, denomSymbol := [], "";
    assert specs[..0] == [];
    for k := 0 to |specs|
      invariant tiers == ResolvedTiers(specs[..k], skus) && denomSymbol == FirstSymbol(tiers)
    {
      NextResolved(specs, skus, k);
      var tier := ResolveTier(specs[k], skusByName, skus);
      if tier.Some? {
        FirstSymbolGrows(tiers, tier.value);
        if denomSymbol == "" {
          denomSymbol := tier.value.denomSymbol;
        }
        tiers := tiers + [tier.value];
      }
    }
    assert specs[..|specs|] == specs;
  }

  /** What the catalogue refresh feeds back: the specs of the tiers it already has. */
  function SpecsFromTiers(tiers: seq<Tier>): (specs: seq<NamedSpec>)
    ensures |specs| == |tiers|
  {
    seq(|tiers|, i requires 0 <= i < |tiers| => NamedSpec(tiers[i].skuName, tiers[i].spec))
  }

  /** Refreshing a resolved catalogue against the same chain SKUs changes nothing. */
  lemma {:induction false} RefreshRepeats(specs: seq<NamedSpec>, skus: seq<Sku>)
    ensures ResolvedTiers(SpecsFromTiers(ResolvedTiers(specs, skus)), skus) == ResolvedTiers(specs, skus)
  {
    hide PricedOffers, TierFrom;
    if specs != [] {
      var n := |specs| - 1;
      var rest := ResolvedTiers(specs[..n], skus);
      RefreshRepeats(specs[..n], skus);
      NextResolved(specs, skus, n);
      assert specs[..n + 1] == specs;
      var offers := PricedOffers(skus, specs[n].name);
      if offers != [] {
        hide ResolvedTiers;
        var again := SpecsFromTiers(rest + [TierFrom(specs[n], offers)]);
        assert again[..|rest|] == SpecsFromTiers(rest) && again[|rest|] == specs[n];
        assert again[..|rest| + 1] == again;
        NextResolved(again, skus, |rest|);
      }
    }
  }

  ghost predicate OnOffer(skus: seq<Sku>, name: string) {
    exists sku :: sku in skus && sku.name == name && sku.basePrice.Some?
  }

  /** The tiers are those of the specifications at the given places, which are all whose name is on offer. */
  ghost predicate Catalogue(specs: seq<NamedSpec>, skus: seq<Sku>, tiers: seq<Tier>, at: seq<nat>) {
    && |at| == |tiers| && (forall i, j :: 0 <= i < j < |at| ==> at[i] < at[j])
    && (forall j :: 0 <= j < |at| ==>
          at[j] < |specs| && tiers[j].skuName == specs[at[j]].name && tiers[j].spec == specs[at[j]].spec)
    && (forall k: nat :: k < |specs| ==> (k in at <==> OnOffer(skus, specs[k].name)))
  }

  lemma CatalogueSkips(specs: seq<NamedSpec>, skus: seq<Sku>, tiers: seq<Tier>, at: seq<nat>, next: NamedSpec)
    requires Catalogue(specs, skus, tiers, at) && !OnOffer(skus, next.name)
    ensures Catalogue(specs + [next], skus, tiers, at)
  {
    hide OnOffer;
  }

  lemma CatalogueAdds(specs: seq<NamedSpec>, skus: seq<Sku>, tiers: seq<Tier>, at: seq<nat>, next: NamedSpec,
                      tier: Tier)
    requires Catalogue(specs, skus, tiers, at) && OnOffer(skus, next.name)
    requires tier.skuName == next.name && tier.spec == next.spec
    ensures Catalogue(specs + [next], skus, tiers + [tier], at + [|specs|])
  {
    hide OnOffer;
    assert forall k :: k in at + [|specs|] <==> k in at || k == |specs|;
  }

  /** The catalogue lists the configured names that have a priced SKU, in their order and with their specifications. */
  lemma {:induction false} CatalogueTells(specs: seq<NamedSpec>, skus: seq<Sku>) returns (at: seq<nat>)
    ensures Catalogue(specs, skus, ResolvedTiers(specs, skus), at)
  {
    hide PricedOffers, TierFrom, OnOffer, Catalogue;
    if specs == [] {
      at := [];
      NothingListed(skus);
    } else {
      var front, last := specs[..|specs| - 1], specs[|specs| - 1];
      var rest := CatalogueTells(front, skus);
      NextResolved(specs, skus, |front|);
      assert specs[..|front| + 1] == specs && front + [last] == specs;
      OffersShow(skus, last.name);
      var offers, before := PricedOffers(skus, last.name), ResolvedTiers(front, skus);
      if offers == [] {
        at := rest;
        CatalogueSkips(front, skus, before, rest, last);
      } else {
        at := rest + [|front|];
        CatalogueAdds(front, skus, before, rest, last, TierFrom(last, offers));
      }
      hide ResolvedTiers;
    }
  }

  lemma NothingListed(skus: seq<Sku>)
    ensures Catalogue([], skus, ResolvedTiers([], skus), [])
  {
  }

  lemma OffersShow(skus: seq<Sku>, name: string)
    ensures PricedOffers(skus, name) != [] <==> OnOffer(skus, name)
  {
    var offers := PricedOffers(skus, name);
    hide PricedOffers;
    assert offers != [] ==> offers[0] in offers;
  }

  /** Every tier is offered by a priced SKU of its name that no other priced SKU of that name undercuts. */
  lemma {:induction false} TiersAreCheapest(specs: seq<NamedSpec>, skus: seq<Sku>, tier: Tier)
    requires tier in ResolvedTiers(specs, skus)
    ensures NamedSpec(tier.skuName, tier.spec) in specs
    ensures exists sku :: sku in skus && sku.name == tier.skuName && sku.uuid == tier.skuUuid
                       && sku.providerUuid == tier.providerUuid && ChargesTheSame(sku, tier.pricePerHour)
                       && sku.basePrice.value.symbol == tier.denomSymbol
    ensures forall sku, price :: sku in skus && sku.name == tier.skuName && ChargesTheSame(sku, price)
                       ==> tier.pricePerHour <= price
  {
    var front, last := specs[..|specs| - 1], specs[|specs| - 1];
    if tier in ResolvedTiers(front, skus) {
      TiersAreCheapest(front, skus, tier);
    } else {
      var offers := PricedOffers(skus, last.name);
      assert tier == TierFrom(last, offers);
      var k := LeastIndex(OfferPrices(offers));
      assert offers[k] in skus;
      forall sku | sku in skus && sku.basePrice.Some? && sku.name == tier.skuName
        ensures tier.pricePerHour <= HourlyPrice(sku)
      {
        var j :| 0 <= j < |offers| && offers[j] == sku;
        assert OfferPrices(offers)[k] <= OfferPrices(offers)[j];
      }
    }
  }
}
