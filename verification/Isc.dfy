/** The selective-consumption (ISC) and other additional taxes of a line. */
module Isc {
  import opened EcfTypes
  import opened Rounding

  datatype Item = Item(
    quantity: real,
    unitPrice: real,
    discount: Option<real>,
    surcharge: Option<real>,
    itbisRate: Option<int>,
    indicadorFacturacion: Option<int>,
    additionalTaxCode: Option<nat>,
    additionalTaxRate: Option<real>,
    alcoholDegrees: Option<real>,
    referenceQuantity: Option<real>,
    subQuantity: Option<real>,
    unitMeasureCode: Option<nat>,
    referenceUnitPrice: Option<real>,
    indicadorMontoGravado: Option<int>)

  /** `x || d` on a number: absent and zero both give the default. */
  function OrElse(x: Option<real>, d: real): real {
    if x.None? || x.value == 0.0 then d else x.value
  }

  /** What the request validation lets through. */
  predicate ItemOk(it: Item) {
    && it.quantity > 0.0
    && (it.itbisRate.Some? ==> it.itbisRate.value in {0, 16, 18})
    && (it.additionalTaxRate.Some? ==> it.additionalTaxRate.value >= 0.0)
  }

  function IscEspecificoAlcohol(it: Item): (r: real)
    ensures IsCents(r)
  {
    Round2(OrElse(it.additionalTaxRate, 0.0) * (OrElse(it.alcoholDegrees, 0.0) / 100.0)
           * OrElse(it.referenceQuantity, 1.0) * OrElse(it.subQuantity, 1.0) * it.quantity)
  }

  function IscEspecificoCigarrillo(it: Item): (r: real)
    ensures IsCents(r)
  {
    Round2(it.quantity * OrElse(it.referenceQuantity, 1.0) * OrElse(it.additionalTaxRate, 0.0))
  }

  /** The unit amounts that the ad-valorem steps split a retail price into. */
  datatype UnitSplit = UnitSplit(basePrice: real, specific: real, advalorem: real) {
    function Total(): real {
      basePrice + advalorem + specific
    }
  }

  function ItbisFactor(itbisRate: int): (c: real)
    requires itbisRate >= 0
    ensures c >= 1.0
  {
    1.0 + itbisRate as real / 100.0
  }

  /** Retail price without ITBIS. */
  function WithoutItbis(pvp: real, itbisRate: int): real
    requires itbisRate >= 0
  {
    Round2(pvp / ItbisFactor(itbisRate))
  }

  function BasePrice(net: real, advaloremRate: real): real
    requires advaloremRate > -1.0
  {
    Round2(net / (1.0 + advaloremRate))
  }

  function UnitAdvalorem(basePrice: real, advaloremRate: real): real {
    Round2(basePrice * advaloremRate)
  }

  /** Steps 2 to 4 for a unit specific tax already known. */
  function SplitUnit(pvpSinItbis: real, specific: real, advaloremRate: real): UnitSplit
    requires advaloremRate > -1.0
  {
    var pvpSinImpuestos := Round2(pvpSinItbis - specific);
    var precioBase := BasePrice(pvpSinImpuestos, advaloremRate);
    UnitSplit(precioBase, specific, UnitAdvalorem(precioBase, advaloremRate))
  }

  function Units(it: Item): (n: real)
    requires it.quantity > 0.0
    ensures n != 0.0
  {
    OrElse(it.referenceQuantity, 1.0) * it.quantity
  }

  function UnitSpecific(it: Item, iscEspecifico: real): real
    requires it.quantity > 0.0
  {
    Round2(iscEspecifico / Units(it))
  }

  /** Steps 1 to 4 for alcohol that is not sold in bulk. */
  function AlcoholSplit(it: Item, iscEspecifico: real, itbisRate: int, advaloremRate: real): UnitSplit
    requires it.quantity > 0.0 && itbisRate >= 0 && advaloremRate > -1.0
  {
    SplitUnit(WithoutItbis(OrElse(it.referenceUnitPrice, 0.0), itbisRate), UnitSpecific(it, iscEspecifico), advaloremRate)
  }

  function CigarrilloSplit(it: Item, itbisRate: int, advaloremRate: real): UnitSplit
    requires itbisRate >= 0 && advaloremRate > -1.0
  {
    SplitUnit(WithoutItbis(OrElse(it.referenceUnitPrice, 0.0), itbisRate), OrElse(it.additionalTaxRate, 0.0), advaloremRate)
  }

  /** Step 5. */
  function ForUnits(unit: real, it: Item): real {
    unit * OrElse(it.referenceQuantity, 1.0) * it.quantity
  }

  const BULK_MEASURE: nat := 18

  function IscAdvaloremAlcohol(it: Item, iscEspecifico: real, itbisRate: int, advaloremRate: real): (r: real)
    requires it.quantity > 0.0 && itbisRate >= 0 && advaloremRate > -1.0
    ensures IsCents(r)
  {
    if it.unitMeasureCode == Some(BULK_MEASURE) then Round2((it.unitPrice * 1.30 * advaloremRate) * it.quantity)
    else Round2(ForUnits(AlcoholSplit(it, iscEspecifico, itbisRate, advaloremRate).advalorem, it))
  }

  function IscAdvaloremCigarrillo(it: Item, itbisRate: int, advaloremRate: real): (r: real)
    requires itbisRate >= 0 && advaloremRate > -1.0
    ensures IsCents(r)
  {
    Round2(ForUnits(CigarrilloSplit(it, itbisRate, advaloremRate).advalorem, it))
  }

  function Taxed(base: real, tasa: real): (r: real)
    ensures IsCents(r)
  {
    Round2(base * tasa)
  }

  /** The amount without the ITBIS that it includes. */
  function TaxBase(montoItem: real, itbisRate: int): real
    requires itbisRate >= 0
  {
    montoItem / ItbisFactor(itbisRate)
  }

  function OtrosImpuestos(montoItem: real, tasa: real, indicadorMontoGravado: int, itbisRate: int): (r: real)
    requires itbisRate >= 0
    ensures IsCents(r)
  {
    if indicadorMontoGravado == 0 then Taxed(montoItem, tasa)
    else Taxed(TaxBase(montoItem, itbisRate), tasa)
  }

  // ----- the steps invert the retail price -----

  /** A rounded quotient, multiplied back. */
  lemma QuotientBound(x: real, q: real, c: real, bound: real)
    requires c > 0.0 && Abs(x - q / c) <= bound
    ensures Abs(x * c - q) <= bound * c
  {
    var d := x - q / c;
    assert (q / c) * c == q;
    assert d * c == x * c - q;
    assert (bound - d) * c >= 0.0 && (bound - d) * c == bound * c - d * c;
    assert (bound + d) * c >= 0.0 && (bound + d) * c == bound * c + d * c;
  }

  lemma BasePriceError(net: real, a: real)
    requires a > -1.0
    ensures Abs(BasePrice(net, a) + BasePrice(net, a) * a - net) <= 0.005 * (1.0 + a)
  {
    var b := BasePrice(net, a);
    QuotientBound(b, net, 1.0 + a, 0.005);
    assert b * (1.0 + a) == b + b * a;
  }

  lemma UnitAdvaloremError(b: real, a: real)
    ensures Abs(UnitAdvalorem(b, a) - b * a) <= 0.005
  {
  }

  /** Base price, specific and ad-valorem tax add up to the price they were split
      from, up to the roundings of the steps; the first one is exact on cents. */
  lemma SplitError(p: real, specific: real, a: real)
    requires a > -1.0
    ensures var first := if IsCents(p) && IsCents(specific) then 0.0 else 0.005;
            Abs(SplitUnit(p, specific, a).Total() - p) <= first + 0.005 * (1.0 + a) + 0.005
  {
    var net := Round2(p - specific);
    if IsCents(p) && IsCents(specific) {
      CentsClosed(p, specific);
    }
    BasePriceError(net, a);
    UnitAdvaloremError(BasePrice(net, a), a);
  }

  lemma WithoutItbisError(pvp: real, itbisRate: int)
    requires itbisRate >= 0
    ensures IsCents(WithoutItbis(pvp, itbisRate))
    ensures Abs(WithoutItbis(pvp, itbisRate) * ItbisFactor(itbisRate) - pvp) <= 0.005 * ItbisFactor(itbisRate)
  {
    QuotientBound(WithoutItbis(pvp, itbisRate), pvp, ItbisFactor(itbisRate), 0.005);
  }

  lemma ScaleBound(unit: real, p: real, pvp: real, c: real, bound: real)
    requires c > 0.0 && Abs(unit - p) <= bound - 0.005 && Abs(p * c - pvp) <= 0.005 * c
    ensures Abs(unit * c - pvp) <= bound * c
  {
    var d, e := unit - p, bound - 0.005;
    assert d * c == unit * c - p * c && e * c == bound * c - 0.005 * c;
    NonNegative(e - d, c);
    NonNegative(e + d, c);
    assert (e - d) * c == e * c - d * c && (e + d) * c == e * c + d * c;
  }

  lemma NonNegative(x: real, c: real)
    requires x >= 0.0 && c >= 0.0
    ensures x * c >= 0.0
  {}

  /** Unit amounts that are close to the price without ITBIS give, with ITBIS
      added back, the retail price up to the scaled error. */
  ghost predicate Restores(s: UnitSplit, pvp: real, itbisRate: int, bound: real)
    requires itbisRate >= 0
  {
    Abs(s.Total() * ItbisFactor(itbisRate) - pvp) <= bound * ItbisFactor(itbisRate)
  }

  lemma AddItbisBack(s: UnitSplit, pvp: real, itbisRate: int, bound: real)
    requires itbisRate >= 0
    requires Abs(s.Total() - WithoutItbis(pvp, itbisRate)) <= bound - 0.005
    ensures Restores(s, pvp, itbisRate, bound)
  {
    hide WithoutItbis, ItbisFactor;
    WithoutItbisError(pvp, itbisRate);
    ScaleBound(s.Total(), WithoutItbis(pvp, itbisRate), pvp, ItbisFactor(itbisRate), bound);
  }

  lemma UnitSpecificIsCents(it: Item, iscEspecifico: real)
    requires it.quantity > 0.0
    ensures IsCents(UnitSpecific(it, iscEspecifico))
  {
  }

  /** Non-bulk alcohol: the declared unit amounts give the retail price back. */
  lemma AlcoholSplitInverts(it: Item, iscEspecifico: real, itbisRate: int, a: real)
    requires it.quantity > 0.0 && itbisRate >= 0 && a > -1.0
    ensures Restores(AlcoholSplit(it, iscEspecifico, itbisRate, a), OrElse(it.referenceUnitPrice, 0.0), itbisRate, 0.005 * (3.0 + a))
  {
    var pvp := OrElse(it.referenceUnitPrice, 0.0);
    WithoutItbisError(pvp, itbisRate);
    UnitSpecificIsCents(it, iscEspecifico);
    SplitError(WithoutItbis(pvp, itbisRate), UnitSpecific(it, iscEspecifico), a);
    AddItbisBack(AlcoholSplit(it, iscEspecifico, itbisRate, a), pvp, itbisRate, 0.005 * (3.0 + a));
  }

  /** Cigarettes: the specific rate itself is the third term. */
  lemma CigarrilloSplitInverts(it: Item, itbisRate: int, a: real)
    requires itbisRate >= 0 && a > -1.0
    ensures Restores(CigarrilloSplit(it, itbisRate, a), OrElse(it.referenceUnitPrice, 0.0), itbisRate, 0.005 * (4.0 + a))
  {
    var pvp := OrElse(it.referenceUnitPrice, 0.0);
    SplitError(WithoutItbis(pvp, itbisRate), OrElse(it.additionalTaxRate, 0.0), a);
    AddItbisBack(CigarrilloSplit(it, itbisRate, a), pvp, itbisRate, 0.005 * (4.0 + a));
  }
}
