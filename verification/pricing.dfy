/** The quote's pricing engine: `calculatePrice` and `calculatePriceWithTax`.

    The pre-tax price is the project's base price plus the prices of the
    selected features, scaled by the urgency multiplier and rounded to whole
    euros; VAT is 20% of that rounded price, rounded on its own; the total is
    their sum. */
module Pricing {
  import opened Wrappers
  import opened QuoteData

  /** `Math.round(p / q)` for a non-negative rational: the nearest integer,
      half-way cases rounding up. */
  function RoundHalfUp(p: nat, q: nat): (r: nat)
    requires q > 0
    ensures 2 * q * r <= 2 * p + q < 2 * q * r + 2 * q
  {
    (2 * p + q) / (2 * q)
  }

  /** Only one integer lies within half a unit of `p / q` (half-way rounding up),
      so the bounds of `RoundHalfUp` determine it. */
  lemma RoundHalfUpUnique(p: nat, q: nat, n: nat)
    requires q > 0
    requires 2 * q * n <= 2 * p + q < 2 * q * n + 2 * q
    ensures n == RoundHalfUp(p, q)
  {
    var r := RoundHalfUp(p, q);
    if n < r {
      MulMonotone(2 * q, n + 1, r);
      assert false;
    } else if n > r {
      MulMonotone(2 * q, r + 1, n);
      assert false;
    }
  }

  lemma MulMonotone(k: nat, a: nat, b: nat)
    requires a <= b
    ensures k * a <= k * b
  {
  }

  /** The VAT rate applied to the pre-tax price. */
  const VatRate: Ratio := Ratio(20, 100)

  /** The base price of the selected project type; an unset or unknown type costs 0. */
  function BasePrice(projectType: string): (r: nat)
    ensures r > 0 <==> IsProjectTypeId(projectType)
    ensures FindProject(projectType).Some? ==> r == FindProject(projectType).value.basePrice
  {
    match FindProject(projectType)
    case Some(p) => p.basePrice
    case None => 0
  }

  /** The price one feature id adds; an id outside the catalog adds 0. */
  function FeaturePrice(id: string): (r: nat)
    ensures r > 0 <==> IsFeatureId(id)
    ensures FindFeature(id).Some? ==> r == FindFeature(id).value.price
  {
    match FindFeature(id)
    case Some(f) => f.price
    case None => 0
  }

  /** `ids.reduce((total, id) => total + price(id), 0)`, folding from the left. */
  function FeaturesPrice(ids: seq<string>): nat {
    if ids == [] then 0
    else FeaturesPrice(ids[..|ids| - 1]) + FeaturePrice(ids[|ids| - 1])
  }

  /** The multiplier of an urgency tag: the table's own value, except that an
      unknown tag, or a zero multiplier (falsy in `|| 1`), gives 1. */
  function UrgencyMultiplier(key: string): (m: Ratio)
    ensures m.Valid() && m.num > 0
    ensures FindUrgency(key).None? ==> m == Ratio(1, 1)
    ensures FindUrgency(key).Some? && FindUrgency(key).value.multiplier.num != 0 ==> m == FindUrgency(key).value.multiplier
    ensures FindUrgency(key).Some? && FindUrgency(key).value.multiplier.num == 0 ==> m == Ratio(1, 1)
  {
    match FindUrgency(key)
    case Some(t) =>
      UrgencyMultipliersValid();
      if t.multiplier.num == 0 then Ratio(1, 1) else t.multiplier
    case None => Ratio(1, 1)
  }

  /** The three tiers price at 9/10, 1 and 13/10, and any other tag at 1. */
  lemma CatalogUrgencyMultipliers(key: string)
    ensures UrgencyMultiplier("flexible") == Ratio(9, 10)
    ensures UrgencyMultiplier("standard") == Ratio(1, 1)
    ensures UrgencyMultiplier("urgent") == Ratio(13, 10)
    ensures key != "flexible" && key != "standard" && key != "urgent" ==> UrgencyMultiplier(key) == Ratio(1, 1)
  {
    assert FindUrgency("flexible") == Some(UrgencyTiers[0]);
    assert FindUrgency("standard") == Some(UrgencyTiers[1]);
    assert FindUrgency("urgent") == Some(UrgencyTiers[2]);
  }

  /** The sum the multiplier applies to. */
  function Subtotal(f: FormData): nat {
    BasePrice(f.projectType) + FeaturesPrice(f.features)
  }

  /** `calculatePrice`: the pre-tax price is the integer nearest to
      (base + features) × multiplier, half-way rounding up. */
  function CalculatePrice(f: FormData): (r: nat)
    ensures var m := UrgencyMultiplier(f.urgency);
      2 * m.den * r <= 2 * (Subtotal(f) * m.num) + m.den < 2 * m.den * r + 2 * m.den
  {
    var m := UrgencyMultiplier(f.urgency);
    RoundHalfUp(Subtotal(f) * m.num, m.den)
  }

  datatype PriceBreakdown = PriceBreakdown(priceHT: nat, tva: nat, priceTTC: nat)

  /** `calculatePriceWithTax`: the VAT is the integer nearest to 20% of the
      rounded pre-tax price, and the total is the pre-tax price plus that VAT. */
  function CalculatePriceWithTax(f: FormData): (b: PriceBreakdown)
    ensures b.priceHT == CalculatePrice(f)
    ensures 2 * VatRate.den * b.tva <= 2 * b.priceHT * VatRate.num + VatRate.den < 2 * VatRate.den * b.tva + 2 * VatRate.den
    ensures b.priceTTC == b.priceHT + b.tva
  {
    var ht := CalculatePrice(f);
    var tva := RoundHalfUp(ht * VatRate.num, VatRate.den);
    PriceBreakdown(ht, tva, ht + tva)
  }

  /** The fold over feature ids distributes over concatenation. */
  lemma {:induction false} FeaturesPriceAppend(a: seq<string>, b: seq<string>)
    ensures FeaturesPrice(a + b) == FeaturesPrice(a) + FeaturesPrice(b)
    decreases |b|
  {
    if b == [] {
      assert a + b == a;
    } else {
      var b' := b[..|b| - 1];
      FeaturesPriceAppend(a, b');
      assert (a + b)[..|a + b| - 1] == a + b';
    }
  }

  /** The order of the selected features does not change their total. */
  lemma FeaturesPriceSwap(a: seq<string>, b: seq<string>)
    ensures FeaturesPrice(a + b) == FeaturesPrice(b + a)
  {
    FeaturesPriceAppend(a, b);
    FeaturesPriceAppend(b, a);
  }

  /** A catalog id resolves to its own catalog entry. */
  lemma FindCatalogFeature(i: nat)
    requires i < |Features|
    ensures FindFeature(Features[i].id) == Some(Features[i])
    ensures FeaturePrice(Features[i].id) == Features[i].price
  {
    CatalogIdsUnique();
    FindByUnique(Features, FeatureId, i);
  }

  /** Selecting catalog feature `i` raises the features amount by exactly its price. */
  lemma AddFeatureAddsItsPrice(ids: seq<string>, i: nat)
    requires i < |Features|
    ensures FeaturesPrice(ids + [Features[i].id]) == FeaturesPrice(ids) + Features[i].price
  {
    FindCatalogFeature(i);
    assert (ids + [Features[i].id])[..|ids|] == ids;
  }

  /** A feature amount made only of unknown ids is 0. */
  lemma {:induction false} UnknownFeaturesCostNothing(ids: seq<string>)
    requires forall k :: 0 <= k < |ids| ==> !IsFeatureId(ids[k])
    ensures FeaturesPrice(ids) == 0
    decreases |ids|
  {
    if ids != [] {
      UnknownFeaturesCostNothing(ids[..|ids| - 1]);
      assert FindFeature(ids[|ids| - 1]).None?;
    }
  }

  /** An id outside the catalog, wherever it sits in the list, leaves the whole
      breakdown unchanged. */
  lemma UnknownFeatureIgnored(f: FormData, a: seq<string>, b: seq<string>, id: string)
    requires f.features == a + b
    requires !IsFeatureId(id)
    ensures CalculatePriceWithTax(f.(features := a + [id] + b)) == CalculatePriceWithTax(f)
  {
    var g := f.(features := a + [id] + b);
    FeaturesPriceAppend(a + [id], b);
    FeaturesPriceAppend(a, [id]);
    FeaturesPriceAppend(a, b);
    UnknownFeaturesCostNothing([id]);
    assert Subtotal(g) == Subtotal(f);
    assert CalculatePrice(g) == CalculatePrice(f);
  }

  /** Without a known project type and without known features everything is 0. */
  lemma EmptySelectionCostsNothing(f: FormData)
    requires !IsProjectTypeId(f.projectType)
    requires forall k :: 0 <= k < |f.features| ==> !IsFeatureId(f.features[k])
    ensures CalculatePriceWithTax(f) == PriceBreakdown(0, 0, 0)
  {
    UnknownFeaturesCostNothing(f.features);
    assert FindProject(f.projectType).None?;
  }

  /** A catalog id resolves to its own project type and base price. */
  lemma CatalogProjectPrice(i: nat)
    requires i < |ProjectTypes|
    ensures FindProject(ProjectTypes[i].id) == Some(ProjectTypes[i])
    ensures BasePrice(ProjectTypes[i].id) == ProjectTypes[i].basePrice
  {
    CatalogIdsUnique();
    FindByUnique(ProjectTypes, ProjectId, i);
  }

  /** A catalog project at standard urgency with no features costs its base price
      before tax and base + round(20% of base) after. */
  lemma StandardProjectTotal(f: FormData, i: nat)
    requires i < |ProjectTypes|
    requires f.projectType == ProjectTypes[i].id && f.features == [] && f.urgency == "standard"
    ensures CalculatePriceWithTax(f).priceHT == ProjectTypes[i].basePrice
    ensures CalculatePriceWithTax(f).priceTTC
         == ProjectTypes[i].basePrice + RoundHalfUp(ProjectTypes[i].basePrice * VatRate.num, VatRate.den)
  {
    var base := ProjectTypes[i].basePrice;
    CatalogProjectPrice(i);
    CatalogUrgencyMultipliers(f.urgency);
    assert Subtotal(f) == base;
    RoundHalfUpUnique(base, 1, base);
    assert CalculatePrice(f) == base;
  }

  /** Web application, urgent, no features: 5850 before tax, 1170 VAT, 7020 in all. */
  lemma WebappUrgentBreakdown(f: FormData)
    requires f.projectType == "webapp" && f.features == [] && f.urgency == "urgent"
    ensures CalculatePriceWithTax(f) == PriceBreakdown(5850, 1170, 7020)
  {
    assert FindProject("webapp") == Some(ProjectTypes[1]);
  }

  /** Showcase site with authentication, flexible: 1800 before tax, 360 VAT, 2160 in all. */
  lemma VitrineAuthFlexibleBreakdown(f: FormData)
    requires f.projectType == "vitrine" && f.features == ["auth"] && f.urgency == "flexible"
    ensures CalculatePriceWithTax(f) == PriceBreakdown(1800, 360, 2160)
  {
    FindCatalogFeature(0);
    assert FeaturesPrice(["auth"]) == 800;
  }

  /** Budget, timeline and contact details are informational: the price depends on
      the project type, the features and the urgency only. */
  lemma PriceIgnoresInformationalFields(f: FormData, g: FormData)
    requires f.projectType == g.projectType && f.features == g.features && f.urgency == g.urgency
    ensures CalculatePriceWithTax(f) == CalculatePriceWithTax(g)
  {
    assert Subtotal(f) == Subtotal(g);
    assert CalculatePrice(f) == CalculatePrice(g);
  }
}
