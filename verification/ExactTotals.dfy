/** Document totals and stored lines against exact arithmetic spelled out from the
    items themselves, column by column, taxes included. */
module ExactTotals {
  import opened EcfTypes
  import opened Rounding
  import opened Isc
  import opened Totals
  import opened TotalsFacts

  // ----- what an item says, without rounding -----

  function Given(x: Option<real>): real {
    if x.Some? then x.value else 0.0
  }

  function Or(x: Option<real>, d: real): real {
    if x.Some? && x.value != 0.0 then x.value else d
  }

  function Amount(it: Item): real {
    it.quantity * it.unitPrice - Given(it.discount) + Given(it.surcharge)
  }

  /** 0 not invoiceable, 1 and 2 taxed at 18 % and 16 %, 3 at 0 %, 4 exempt; without it
      the rate decides, and without a rate 18 % holds. */
  function IndicatorOf(it: Item): int {
    if it.indicadorFacturacion.Some? then it.indicadorFacturacion.value
    else if it.itbisRate == Some(16) then 2
    else if it.itbisRate == Some(0) then 3
    else 1
  }

  function RateOf(it: Item): int {
    if it.itbisRate.Some? then it.itbisRate.value else 18
  }

  predicate Requested(it: Item) {
    ItemOk(it) && 0 <= IndicatorOf(it) <= 4
  }

  /** Net of the ITBIS that a retail price includes. */
  function NetOfItbis(x: real, it: Item): real
    requires ItemOk(it)
  {
    x / (1.0 + RateOf(it) as real / 100.0)
  }

  function TaxRate(it: Item): real {
    Or(it.additionalTaxRate, 0.0)
  }

  function UnitsOf(it: Item): real {
    Or(it.referenceQuantity, 1.0) * it.quantity
  }

  /** Specific tax on alcohol: rate, degrees, reference quantity, subquantity, quantity. */
  function AlcoholTax(it: Item): real {
    TaxRate(it) * (Or(it.alcoholDegrees, 0.0) / 100.0) * Or(it.referenceQuantity, 1.0) * Or(it.subQuantity, 1.0) * it.quantity
  }

  /** Ad-valorem tax of one unit: the rate on the price net of ITBIS, of the specific tax
      and of the ad-valorem tax itself. */
  function UnitTax(it: Item, specific: real): real
    requires ItemOk(it)
  {
    Share(NetOfItbis(Or(it.referenceUnitPrice, 0.0), it) - specific, TaxRate(it))
  }

  function Share(x: real, a: real): real
    requires a >= 0.0
  {
    x / (1.0 + a) * a
  }

  /** The tax of one unit, for all units of the line. */
  function PerUnit(unit: real, it: Item): real {
    unit * Or(it.referenceQuantity, 1.0) * it.quantity
  }

  function AlcoholUnit(it: Item): real
    requires ItemOk(it)
  {
    UnitsMatch(it);
    AlcoholTax(it) / UnitsOf(it)
  }

  predicate Bulk(it: Item) {
    it.unitMeasureCode == Some(18)
  }

  function AdvaloremTax(it: Item): real
    requires ItemOk(it) && it.additionalTaxCode.Some?
  {
    if it.additionalTaxCode.value >= 36 then PerUnit(UnitTax(it, TaxRate(it)), it)
    else if Bulk(it) then (it.unitPrice * 1.30 * TaxRate(it)) * it.quantity
    else PerUnit(UnitTax(it, AlcoholUnit(it)), it)
  }

  /** Whether the amount of the line includes ITBIS: its own mark, or the document's. */
  predicate IncludesItbis(it: Item, montoGravado: int) {
    if it.indicadorMontoGravado.Some? && it.indicadorMontoGravado.value != 0 then true else montoGravado != 0
  }

  function OtherTax(base: real, rate: real): real {
    base * rate
  }

  /** What an item adds to each column of the totals, by its indicator and by the band of
      its tax code: 1 to 5 other taxes, 6 to 22 specific, 23 to 39 ad valorem. */
  function Exact(c: Column, montoGravado: int, it: Item): real {
    if !ItemOk(it) then 0.0
    else
      match c
      case Gravado18 => if IndicatorOf(it) == 1 then Amount(it) else 0.0
      case Gravado16 => if IndicatorOf(it) == 2 then Amount(it) else 0.0
      case Gravado0 => if IndicatorOf(it) == 3 then Amount(it) else 0.0
      case Exento => if IndicatorOf(it) == 4 then Amount(it) else 0.0
      case NoFacturable => if IndicatorOf(it) == 0 then Amount(it) else 0.0
      case Itbis18 => if IndicatorOf(it) == 1 then Amount(it) * 0.18 else 0.0
      case Itbis16 => if IndicatorOf(it) == 2 then Amount(it) * 0.16 else 0.0
      case Descuento => Given(it.discount)
      case Especifico =>
        if it.additionalTaxCode.None? then 0.0
        else if 6 <= it.additionalTaxCode.value <= 18 then AlcoholTax(it)
        else if 19 <= it.additionalTaxCode.value <= 22 then it.quantity * Or(it.referenceQuantity, 1.0) * TaxRate(it)
        else 0.0
      case Advalorem =>
        if it.additionalTaxCode.Some? && 23 <= it.additionalTaxCode.value <= 39 then AdvaloremTax(it) else 0.0
      case Otros =>
        if it.additionalTaxCode.Some? && 1 <= it.additionalTaxCode.value <= 5
        then OtherTax(if IncludesItbis(it, montoGravado) then NetOfItbis(Amount(it), it) else Amount(it), TaxRate(it))
        else 0.0
  }

  /** An error of one unit, for all units of the line. */
  function ForAll(e: real, it: Item): real {
    Abs(UnitsOf(it)) * e
  }

  /** How far the roundings of the code may take it from there. */
  function Tolerance(c: Column, it: Item): real {
    match c
    case Gravado18 => if IndicatorOf(it) == 1 then 0.005 else 0.0
    case Gravado16 => if IndicatorOf(it) == 2 then 0.005 else 0.0
    case Gravado0 => if IndicatorOf(it) == 3 then 0.005 else 0.0
    case Exento => if IndicatorOf(it) == 4 then 0.005 else 0.0
    case NoFacturable => if IndicatorOf(it) == 0 then 0.005 else 0.0
    case Itbis18 => if IndicatorOf(it) == 1 then 0.0059 else 0.0
    case Itbis16 => if IndicatorOf(it) == 2 then 0.0058 else 0.0
    case Descuento => 0.0
    case Especifico => if it.additionalTaxCode.Some? && 6 <= it.additionalTaxCode.value <= 22 then 0.005 else 0.0
    case Advalorem =>
      if it.additionalTaxCode.Some? && 23 <= it.additionalTaxCode.value <= 39
      then (if Bulk(it) && it.additionalTaxCode.value <= 35 then 0.005
            else ForAll(0.015 + 0.005 * TaxRate(it), it) + 0.01)
      else 0.0
    case Otros => if it.additionalTaxCode.Some? && 1 <= it.additionalTaxCode.value <= 5 then 0.005 * TaxRate(it) + 0.005 else 0.0
  }

  // ----- the code reads the same things -----

  lemma DefaultsMatch(x: Option<real>, d: real)
    ensures Or(x, d) == OrElse(x, d) && Given(x) == OrElse(x, 0.0)
  {}

  lemma UnitsMatch(it: Item)
    requires ItemOk(it)
    ensures UnitsOf(it) == Units(it) && UnitsOf(it) != 0.0
  {
    DefaultsMatch(it.referenceQuantity, 1.0);
  }

  lemma AmountMatches(it: Item)
    ensures Amount(it) == RawAmount(it)
  {
    DefaultsMatch(it.discount, 0.0);
    DefaultsMatch(it.surcharge, 0.0);
  }

  lemma IndicatorMatches(it: Item)
    requires ItemOk(it)
    ensures IndicatorOf(it) == Indicador(it) && RateOf(it) == Rate(it)
  {}

  lemma SubtotalNear(it: Item)
    ensures Abs(LineSubtotal(it) - Amount(it)) <= 0.005 && IsCents(LineSubtotal(it))
  {
    AmountMatches(it);
  }

  // ----- bounds of products and quotients -----

  lemma Scaled(x: real, y: real, e: real, k: real)
    requires Abs(x - y) <= e && k >= 0.0
    ensures Abs(x * k - y * k) <= e * k
  {
    NonNegative(e - (x - y), k);
    NonNegative(e + (x - y), k);
    assert (e - (x - y)) * k == e * k - x * k + y * k && (e + (x - y)) * k == e * k + x * k - y * k;
  }

  lemma ScaledEither(x: real, y: real, e: real, k: real)
    requires Abs(x - y) <= e
    ensures Abs(x * k - y * k) <= e * Abs(k)
  {
    if k >= 0.0 {
      Scaled(x, y, e, k);
    } else {
      Scaled(x, y, e, -k);
      assert x * -k == -(x * k) && y * -k == -(y * k);
    }
  }

  lemma Divided(x: real, y: real, e: real, c: real)
    requires Abs(x - y) <= e && c >= 1.0
    ensures Abs(x / c - y / c) <= e
  {
    var p, q := x / c, y / c;
    assert p * c == x && q * c == y;
    if p - q > e {
      Larger(p - q, e, c);
      assert (p - q) * c == x - y;
    }
    if q - p > e {
      Larger(q - p, e, c);
      assert (q - p) * c == y - x;
    }
  }

  lemma Larger(d: real, e: real, c: real)
    requires d > e >= 0.0 && c >= 1.0
    ensures d * c > e
  {
    NonNegative(d, c - 1.0);
    assert d * c == d + d * (c - 1.0);
  }

  // ----- one item against one column -----

  lemma SubtotalNearColumn(c: Column, montoGravado: int, it: Item)
    requires Requested(it) && c in {Gravado18, Gravado16, Gravado0, Exento, NoFacturable}
    ensures Abs(LinePart(c, montoGravado, it) - Exact(c, montoGravado, it)) <= Tolerance(c, it)
  {
    IndicatorMatches(it);
    SubtotalNear(it);
    hide Amount, LineSubtotal, Assess;
    AssessedSubtotal(it, montoGravado);
  }

  lemma AssessedSubtotal(it: Item, montoGravado: int)
    requires ItemOk(it)
    ensures var l := Assess(it, montoGravado);
            l.subtotal == LineSubtotal(it) && l.indicador == Indicador(it) && l.rate == Rate(it)
            && l.discount == OrElse(it.discount, 0.0) && l.tax == LineTax(it, montoGravado)
  {}

  lemma ItbisNearColumn(c: Column, montoGravado: int, it: Item)
    requires Requested(it) && (c == Itbis18 || c == Itbis16)
    ensures Abs(LinePart(c, montoGravado, it) - Exact(c, montoGravado, it)) <= Tolerance(c, it)
  {
    IndicatorMatches(it);
    SubtotalNear(it);
    ItbisAmountNear(LineSubtotal(it), Amount(it));
    hide Amount, LineSubtotal, Assess;
    AssessedSubtotal(it, montoGravado);
  }

  lemma ItbisAmountNear(subtotal: real, exact: real)
    requires Abs(subtotal - exact) <= 0.005
    ensures Abs(Round2(subtotal * 0.18) - exact * 0.18) <= 0.0059
    ensures Abs(Round2(subtotal * 0.16) - exact * 0.16) <= 0.0058
  {}

  lemma EspecificoNear(montoGravado: int, it: Item)
    requires ItemOk(it)
    ensures Abs(LinePart(Especifico, montoGravado, it) - Exact(Especifico, montoGravado, it)) <= Tolerance(Especifico, it)
  {
    AlcoholTaxNear(it);
    CigaretteTaxNear(it);
    hide AlcoholTax, IscEspecificoAlcohol, IscEspecificoCigarrillo, IscAdvaloremAlcohol, IscAdvaloremCigarrillo, OtrosImpuestos;
    AssessedSubtotal(it, montoGravado);
  }

  lemma AlcoholTaxNear(it: Item)
    ensures Abs(IscEspecificoAlcohol(it) - AlcoholTax(it)) <= 0.005
  {
    DefaultsMatch(it.additionalTaxRate, 0.0);
    DefaultsMatch(it.alcoholDegrees, 0.0);
    DefaultsMatch(it.referenceQuantity, 1.0);
    DefaultsMatch(it.subQuantity, 1.0);
  }

  lemma CigaretteTaxNear(it: Item)
    ensures Abs(IscEspecificoCigarrillo(it) - it.quantity * Or(it.referenceQuantity, 1.0) * TaxRate(it)) <= 0.005
  {
    DefaultsMatch(it.additionalTaxRate, 0.0);
    DefaultsMatch(it.referenceQuantity, 1.0);
  }

  lemma OtrosNear(montoGravado: int, it: Item)
    requires ItemOk(it)
    ensures Abs(LinePart(Otros, montoGravado, it) - Exact(Otros, montoGravado, it)) <= Tolerance(Otros, it)
  {
    var own := if it.indicadorMontoGravado.Some? then it.indicadorMontoGravado.value else 0;
    var x, y, z := LineSubtotal(it), Amount(it), NetOfItbis(Amount(it), it);
    SubtotalNear(it);
    TaxRateMatches(it);
    IndicatorMatches(it);
    NetNear(x, y, it);
    OtherTaxNear(x, y, z, TaxRate(it), if own != 0 then own else montoGravado, RateOf(it));
    hide NetOfItbis, Amount, LineSubtotal, TaxRate, RateOf, Rate, OtherTax, AlcoholTax, AdvaloremTax;
    hide IscEspecificoAlcohol, IscEspecificoCigarrillo, IscAdvaloremAlcohol, IscAdvaloremCigarrillo, OtrosImpuestos;
    AssessedSubtotal(it, montoGravado);
  }

  lemma TaxRateMatches(it: Item)
    ensures TaxRate(it) == OrElse(it.additionalTaxRate, 0.0)
    ensures ItemOk(it) ==> TaxRate(it) >= 0.0
  {}

  /** The tax on an amount `x` near `y` whose part without ITBIS is near `z`. */
  lemma OtherTaxNear(x: real, y: real, z: real, k: real, mark: int, rate: int)
    requires k >= 0.0 && rate >= 0 && Abs(x - y) <= 0.005 && Abs(TaxBase(x, rate) - z) <= 0.005
    ensures Abs(OtrosImpuestos(x, k, mark, rate) - OtherTax(if mark == 0 then y else z, k)) <= 0.005 * k + 0.005
  {
    hide TaxBase, Taxed, OtherTax;
    if mark == 0 {
      TaxedNear(x, y, k);
    } else {
      TaxedNear(TaxBase(x, rate), z, k);
    }
  }

  lemma NetNear(x: real, y: real, it: Item)
    requires ItemOk(it) && Abs(x - y) <= 0.005
    ensures Abs(TaxBase(x, RateOf(it)) - NetOfItbis(y, it)) <= 0.005
  {
    Divided(x, y, 0.005, ItbisFactor(RateOf(it)));
  }

  lemma TaxedNear(x: real, y: real, k: real)
    requires Abs(x - y) <= 0.005 && k >= 0.0
    ensures Abs(Taxed(x, k) - OtherTax(y, k)) <= 0.005 * k + 0.005
  {
    Scaled(x, y, 0.005, k);
    RoundedNear(x * k, y * k, 0.005 * k);
  }

  lemma RoundedNear(x: real, y: real, e: real)
    requires Abs(x - y) <= e
    ensures Abs(Round2(x) - y) <= e + 0.005
  {}

  // ----- ad valorem -----

  /** A price share `x / (1 + a) * a` does not grow an error. */
  lemma ShareBound(d: real, a: real)
    requires d >= 0.0 && a >= 0.0
    ensures d / (1.0 + a) * a <= d
  {
    var q := d / (1.0 + a);
    assert q * (1.0 + a) == d;
    assert q * (1.0 + a) == q + q * a;
    assert q >= 0.0;
  }

  lemma SplitUnitNear(p: real, specific: real, a: real, exact: real, e: real)
    requires a >= 0.0 && Abs(p - specific - exact) <= e
    ensures var first := if IsCents(p) && IsCents(specific) then 0.0 else 0.005;
            Abs(SplitUnit(p, specific, a).advalorem - Share(exact, a)) <= e + first + 0.005 * a + 0.005
  {
    var first := if IsCents(p) && IsCents(specific) then 0.0 else 0.005;
    var net := Round2(p - specific);
    if IsCents(p) && IsCents(specific) {
      CentsClosed(p, specific);
    }
    assert Abs(net - exact) <= e + first;
    var base := BasePrice(net, a);
    ShareNear(net, exact, a, e + first);
    BaseNear(net, a);
    TaxedBaseNear(base, a);
    hide BasePrice, UnitAdvalorem, IsCents, Share, OtherTax, Round2;
    ThreeSteps(UnitAdvalorem(base, a), OtherTax(base, a), Share(net, a), Share(exact, a), 0.005, 0.005 * a, e + first);
  }

  lemma TaxedBaseNear(base: real, a: real)
    ensures Abs(UnitAdvalorem(base, a) - OtherTax(base, a)) <= 0.005
  {}

  lemma BaseNear(net: real, a: real)
    requires a >= 0.0
    ensures Abs(OtherTax(BasePrice(net, a), a) - Share(net, a)) <= 0.005 * a
  {
    var b, q := BasePrice(net, a), net / (1.0 + a);
    assert Abs(b - q) <= 0.005;
    hide BasePrice, Round2;
    Scaled(b, q, 0.005, a);
    assert Share(net, a) == q * a && OtherTax(b, a) == b * a;
  }

  lemma ThreeSteps(w: real, x: real, y: real, z: real, e1: real, e2: real, e3: real)
    requires Abs(w - x) <= e1 && Abs(x - y) <= e2 && Abs(y - z) <= e3
    ensures Abs(w - z) <= e1 + e2 + e3
  {}

  lemma ShareNear(x: real, y: real, a: real, d: real)
    requires a >= 0.0 && Abs(x - y) <= d
    ensures Abs(Share(x, a) - Share(y, a)) <= d
  {
    var c := 1.0 + a;
    var p, q, r := x / c, y / c, d / c;
    assert p * c == x && q * c == y && r * c == d;
    if p - q > r {
      Less(r, p - q, c);
    }
    if q - p > r {
      Less(r, q - p, c);
    }
    Scaled(p, q, r, a);
    ShareBound(d, a);
  }

  lemma Less(x: real, y: real, c: real)
    requires x < y && c >= 1.0
    ensures x * c < y * c
  {
    NonNegative(y - x, c - 1.0);
    assert (y - x) * c == (y - x) + (y - x) * (c - 1.0);
    assert (y - x) * c == y * c - x * c;
  }

  lemma AdvaloremNear(montoGravado: int, it: Item)
    requires ItemOk(it)
    ensures Abs(LinePart(Advalorem, montoGravado, it) - Exact(Advalorem, montoGravado, it)) <= Tolerance(Advalorem, it)
  {
    if it.additionalTaxCode.Some? && 23 <= it.additionalTaxCode.value <= 39 {
      if it.additionalTaxCode.value >= 36 {
        CigaretteAdvaloremNear(it);
      } else {
        AlcoholAdvaloremNear(it);
      }
    }
    hide AdvaloremTax, AlcoholTax, UnitsOf, Bulk, TaxRate, Rate, RateOf;
    hide IscEspecificoAlcohol, IscEspecificoCigarrillo, IscAdvaloremAlcohol, IscAdvaloremCigarrillo, OtrosImpuestos;
    AssessedSubtotal(it, montoGravado);
    TaxRateMatches(it);
    IndicatorMatches(it);
  }

  lemma PerUnitNear(x: real, y: real, e: real, it: Item)
    requires Abs(x - y) <= e
    ensures Abs(Round2(ForUnits(x, it)) - PerUnit(y, it)) <= ForAll(e, it) + 0.005
  {
    ForUnitsNear(x, y, e, it);
    hide ForUnits, PerUnit, ForAll;
    RoundedNear(ForUnits(x, it), PerUnit(y, it), ForAll(e, it));
  }

  lemma ForUnitsNear(x: real, y: real, e: real, it: Item)
    requires Abs(x - y) <= e
    ensures Abs(ForUnits(x, it) - PerUnit(y, it)) <= ForAll(e, it)
  {
    PerUnitIsProduct(x, it);
    PerUnitIsProduct(y, it);
    ForAllIsProduct(e, it);
    hide ForUnits, PerUnit, ForAll, UnitsOf;
    ScaledEither(x, y, e, UnitsOf(it));
  }

  lemma ForAllIsProduct(e: real, it: Item)
    ensures ForAll(e, it) == e * Abs(UnitsOf(it))
  {
    hide UnitsOf, Abs;
  }

  lemma PerUnitIsProduct(x: real, it: Item)
    ensures PerUnit(x, it) == x * UnitsOf(it) == ForUnits(x, it)
  {
    DefaultsMatch(it.referenceQuantity, 1.0);
  }

  lemma CigaretteAdvaloremNear(it: Item)
    requires ItemOk(it) && it.additionalTaxCode.Some? && it.additionalTaxCode.value >= 36
    ensures Abs(IscAdvaloremCigarrillo(it, RateOf(it), TaxRate(it)) - AdvaloremTax(it))
            <= ForAll(0.015 + 0.005 * TaxRate(it), it) + 0.01
  {
    var pvp, a, rate := Or(it.referenceUnitPrice, 0.0), TaxRate(it), RateOf(it);
    var p, unit := WithoutItbis(pvp, rate), CigarrilloSplit(it, rate, a).advalorem;
    TaxRateMatches(it);
    PriceNear(pvp, it);
    SplitUnitNear(p, a, a, NetOfItbis(pvp, it) - a, 0.005);
    CigaretteSplits(it);
    hide NetOfItbis, WithoutItbis, SplitUnit, CigarrilloSplit, Share, TaxRate, RateOf, Or, OrElse, PerUnit, ForUnits, UnitsOf, IsCents, Round2, ForAll;
    PerUnitNear(unit, UnitTax(it, a), 0.015 + 0.005 * a, it);
  }

  lemma CigaretteSplits(it: Item)
    requires ItemOk(it)
    ensures CigarrilloSplit(it, RateOf(it), TaxRate(it))
         == SplitUnit(WithoutItbis(Or(it.referenceUnitPrice, 0.0), RateOf(it)), TaxRate(it), TaxRate(it))
  {
    DefaultsMatch(it.referenceUnitPrice, 0.0);
    TaxRateMatches(it);
    hide SplitUnit, WithoutItbis;
  }

  lemma AlcoholSplits(it: Item, isc: real)
    requires ItemOk(it)
    ensures AlcoholSplit(it, isc, RateOf(it), TaxRate(it))
         == SplitUnit(WithoutItbis(Or(it.referenceUnitPrice, 0.0), RateOf(it)), UnitSpecific(it, isc), TaxRate(it))
  {
    DefaultsMatch(it.referenceUnitPrice, 0.0);
    hide SplitUnit, WithoutItbis, UnitSpecific;
  }

  lemma PriceNear(pvp: real, it: Item)
    requires ItemOk(it)
    ensures Abs(WithoutItbis(pvp, RateOf(it)) - NetOfItbis(pvp, it)) <= 0.005
    ensures IsCents(WithoutItbis(pvp, RateOf(it)))
  {}

  lemma AlcoholAdvaloremNear(it: Item)
    requires ItemOk(it) && it.additionalTaxCode.Some? && it.additionalTaxCode.value < 36
    ensures Abs(IscAdvaloremAlcohol(it, IscEspecificoAlcohol(it), RateOf(it), TaxRate(it)) - AdvaloremTax(it))
            <= if Bulk(it) then 0.005 else ForAll(0.015 + 0.005 * TaxRate(it), it) + 0.01
  {
    if !Bulk(it) {
      NonBulkNear(it);
    }
  }

  lemma NonBulkNear(it: Item)
    requires ItemOk(it)
    ensures Abs(Round2(ForUnits(AlcoholSplit(it, IscEspecificoAlcohol(it), RateOf(it), TaxRate(it)).advalorem, it))
                - PerUnit(UnitTax(it, AlcoholUnit(it)), it))
            <= ForAll(0.015 + 0.005 * TaxRate(it), it) + 0.01
  {
    UnitsMatch(it);
    var a, e := TaxRate(it), CentShare(it);
    var unit := AlcoholSplit(it, IscEspecificoAlcohol(it), RateOf(it), a).advalorem;
    AlcoholUnitTaxNear(it);
    ForAllSpreads(it, 0.015 + 0.005 * a, e);
    hide AlcoholSplit, AlcoholUnit, UnitTax, IscEspecificoAlcohol, TaxRate, RateOf, PerUnit, ForUnits, UnitsOf, Round2, ForAll;
    PerUnitNear(unit, UnitTax(it, AlcoholUnit(it)), 0.015 + 0.005 * a + e, it);
  }

  lemma AlcoholUnitTaxNear(it: Item)
    requires ItemOk(it)
    ensures Abs(AlcoholSplit(it, IscEspecificoAlcohol(it), RateOf(it), TaxRate(it)).advalorem - UnitTax(it, AlcoholUnit(it)))
            <= 0.015 + 0.005 * TaxRate(it) + CentShare(it)
  {
    hide NetOfItbis, WithoutItbis, UnitSpecific, AlcoholSplit, AlcoholUnit, IscEspecificoAlcohol, TaxRate, RateOf;
    hide Or, OrElse, UnitsOf, IsCents, Round2, Share, SplitUnit, CentShare, UnitTax;
    TaxRateMatches(it);
    RateIsNatural(it);
    var pvp, a, rate, isc := Or(it.referenceUnitPrice, 0.0), TaxRate(it), RateOf(it), IscEspecificoAlcohol(it);
    var p, specific := WithoutItbis(pvp, rate), UnitSpecific(it, isc);
    var e, net, part := CentShare(it), NetOfItbis(pvp, it), AlcoholUnit(it);
    PriceNear(pvp, it);
    AlcoholUnitNear(it);
    UnitSpecificIsCents(it, isc);
    AlcoholSplits(it, isc);
    DifferencesNear(p, specific, net, part, 0.005, 0.005 + e);
    UnitTaxIsShare(it, part);
    hide Abs;
    SplitUnitNear(p, specific, a, net - part, 0.01 + e);
  }

  lemma RateIsNatural(it: Item)
    requires ItemOk(it)
    ensures RateOf(it) >= 0
  {}

  lemma UnitTaxIsShare(it: Item, specific: real)
    requires ItemOk(it)
    ensures UnitTax(it, specific) == Share(NetOfItbis(Or(it.referenceUnitPrice, 0.0), it) - specific, TaxRate(it))
  {}

  /** Half a cent of the line, on one of its units. */
  function CentShare(it: Item): real
    requires ItemOk(it)
  {
    UnitsMatch(it);
    0.005 / Abs(UnitsOf(it))
  }

  lemma DifferencesNear(a: real, b: real, x: real, y: real, d: real, e: real)
    requires Abs(a - x) <= d && Abs(b - y) <= e
    ensures Abs(a - b - (x - y)) <= d + e
  {}

  lemma ForAllSpreads(it: Item, k: real, e: real)
    requires ItemOk(it) && e == CentShare(it)
    ensures ForAll(k + e, it) == ForAll(k, it) + 0.005
  {
    UnitsMatch(it);
    Spread(Abs(UnitsOf(it)), k, e);
  }

  lemma Spread(u: real, k: real, e: real)
    requires u > 0.0 && e == 0.005 / u
    ensures u * (k + e) == u * k + 0.005
  {
    assert u * (k + e) == u * k + u * e;
    assert u * e == 0.005;
  }

  lemma AlcoholUnitNear(it: Item)
    requires ItemOk(it)
    ensures Abs(UnitSpecific(it, IscEspecificoAlcohol(it)) - AlcoholUnit(it)) <= 0.005 + CentShare(it)
  {
    UnitsMatch(it);
    AlcoholTaxNear(it);
    var x, y, u := IscEspecificoAlcohol(it), AlcoholTax(it), UnitsOf(it);
    QuotientNear(x, y, 0.005, u);
    RoundedNear(x / u, y / u, 0.005 / Abs(u));
  }

  lemma QuotientNear(x: real, y: real, e: real, u: real)
    requires Abs(x - y) <= e && u != 0.0
    ensures Abs(x / u - y / u) <= e / Abs(u)
  {
    var d, r, c := x / u - y / u, e / Abs(u), Abs(u);
    DifferenceTimes(x, y, u);
    AbsProduct(d, u);
    assert Abs(d) * c <= e && r * c == e && c > 0.0;
    if r < Abs(d) {
      Bigger(r, Abs(d), c);
    }
  }

  lemma DifferenceTimes(x: real, y: real, u: real)
    requires u != 0.0
    ensures (x / u - y / u) * u == x - y
  {
    var p, q := x / u, y / u;
    assert p * u == x && q * u == y;
  }

  lemma Bigger(x: real, y: real, c: real)
    requires x < y && c > 0.0
    ensures x * c < y * c
  {
    assert (y - x) * c > 0.0;
    assert (y - x) * c == y * c - x * c;
  }

  lemma AbsProduct(x: real, y: real)
    ensures Abs(x * y) == Abs(x) * Abs(y)
  {
    if x < 0.0 {
      assert -x * y == -(x * y) && -x * -y == x * y;
    }
    if y < 0.0 {
      assert x * -y == -(x * y) && -x * -y == x * y;
    }
  }

  // ----- the whole document -----

  lemma DiscountExact(montoGravado: int, it: Item)
    requires ItemOk(it)
    ensures LinePart(Descuento, montoGravado, it) == Exact(Descuento, montoGravado, it)
  {
    AssessedSubtotal(it, montoGravado);
    DefaultsMatch(it.discount, 0.0);
  }

  lemma ItemNear(c: Column, montoGravado: int, it: Item)
    requires Requested(it)
    ensures Abs(LinePart(c, montoGravado, it) - Exact(c, montoGravado, it)) <= Tolerance(c, it)
  {
    hide LinePart, Exact;
    match c {
      case Gravado18 | Gravado16 | Gravado0 | Exento | NoFacturable => SubtotalNearColumn(c, montoGravado, it);
      case Itbis18 | Itbis16 => ItbisNearColumn(c, montoGravado, it);
      case Descuento => DiscountExact(montoGravado, it);
      case Especifico => EspecificoNear(montoGravado, it);
      case Advalorem => AdvaloremNear(montoGravado, it);
      case Otros => OtrosNear(montoGravado, it);
    }
  }

  function ExactSum(items: seq<Item>, c: Column, montoGravado: int): real {
    Sum(items, it => Exact(c, montoGravado, it))
  }

  function ToleranceSum(items: seq<Item>, c: Column): real {
    Sum(items, it => Tolerance(c, it))
  }

  /** A declared amount against the exact one. */
  predicate Near(declared: real, items: seq<Item>, c: Column, montoGravado: int) {
    Abs(declared - ExactSum(items, c, montoGravado)) <= ToleranceSum(items, c)
  }

  lemma {:induction false} ColumnNear(items: seq<Item>, c: Column, montoGravado: int)
    requires forall it :: it in items ==> ItemOk(it) && Requested(it)
    ensures Near(ColumnSum(Lines(items, montoGravado), c), items, c, montoGravado)
  {
    ColumnOverItems(items, c, montoGravado);
    forall it | it in items
      ensures Abs(LinePart(c, montoGravado, it) - Exact(c, montoGravado, it)) <= Tolerance(c, it)
    {
      ItemNear(c, montoGravado, it);
    }
    hide LinePart, Exact, Tolerance, ColumnSum;
    SumErrorSum(items, it => LinePart(c, montoGravado, it), it => Exact(c, montoGravado, it), it => Tolerance(c, it));
  }

  /** Every amount of the totals is the exact sum of its own items up to the roundings:
      half a cent for each subtotal, and the tolerances of ITBIS and of each tax. The
      header amounts are the sums of their columns, and the discount is rounded once. */
  lemma {:induction false} TotalsAreExact(items: seq<Item>, montoGravado: int)
    requires forall it :: it in items ==> ItemOk(it) && Requested(it)
    ensures var t := TotalsOf(Lines(items, montoGravado));
            && Near(t.taxableAmount18, items, Gravado18, montoGravado)
            && Near(t.taxableAmount16, items, Gravado16, montoGravado)
            && Near(t.taxableAmount0, items, Gravado0, montoGravado)
            && Near(t.exemptAmount, items, Exento, montoGravado)
            && Near(t.montoNoFacturable, items, NoFacturable, montoGravado)
            && Near(t.itbis18, items, Itbis18, montoGravado)
            && Near(t.itbis16, items, Itbis16, montoGravado)
            && Near(t.totalIscEspecifico, items, Especifico, montoGravado)
            && Near(t.totalIscAdvalorem, items, Advalorem, montoGravado)
            && Near(t.totalOtrosImpuestos, items, Otros, montoGravado)
    ensures var t := TotalsOf(Lines(items, montoGravado));
            && t.subtotalBeforeTax == t.taxableAmount18 + t.taxableAmount16 + t.taxableAmount0 + t.exemptAmount
            && t.totalItbis == t.itbis18 + t.itbis16
            && t.totalIsc == t.totalIscEspecifico + t.totalIscAdvalorem
            && t.totalAmount == t.subtotalBeforeTax + t.totalItbis + t.totalIsc + t.totalOtrosImpuestos + t.montoNoFacturable
            && Abs(t.totalDiscount - Sum(items, (it: Item) => Given(it.discount))) <= 0.005
  {
    ColumnNear(items, Gravado18, montoGravado);
    ColumnNear(items, Gravado16, montoGravado);
    ColumnNear(items, Gravado0, montoGravado);
    ColumnNear(items, Exento, montoGravado);
    ColumnNear(items, NoFacturable, montoGravado);
    ColumnNear(items, Itbis18, montoGravado);
    ColumnNear(items, Itbis16, montoGravado);
    ColumnNear(items, Especifico, montoGravado);
    ColumnNear(items, Advalorem, montoGravado);
    ColumnNear(items, Otros, montoGravado);
    DiscountColumn(items, montoGravado);
    hide ColumnSum, Near;
  }

  lemma {:induction false} DiscountColumn(items: seq<Item>, montoGravado: int)
    requires forall it :: it in items ==> ItemOk(it)
    ensures ColumnSum(Lines(items, montoGravado), Descuento) == Sum(items, (it: Item) => Given(it.discount))
  {
    if items != [] {
      var last := |items| - 1;
      assert Lines(items, montoGravado)[..last] == Lines(items[..last], montoGravado);
      assert items[last] in items;
      DiscountColumn(items[..last], montoGravado);
      DiscountExact(montoGravado, items[last]);
    }
  }

  // ----- the total -----

  function ItbisOf(it: Item): real {
    if IndicatorOf(it) == 1 then Amount(it) * 0.18 else if IndicatorOf(it) == 2 then Amount(it) * 0.16 else 0.0
  }

  function TaxOf(it: Item, montoGravado: int): real {
    Exact(Especifico, montoGravado, it) + Exact(Advalorem, montoGravado, it) + Exact(Otros, montoGravado, it)
  }

  function TaxTolerance(it: Item): real {
    Tolerance(Especifico, it) + Tolerance(Advalorem, it) + Tolerance(Otros, it)
  }

  function DeclaredItem(it: Item, montoGravado: int): real {
    if ItemOk(it) then AllParts(Assess(it, montoGravado)) else 0.0
  }

  lemma DeclaredItemNear(it: Item, montoGravado: int)
    requires Requested(it)
    ensures Abs(DeclaredItem(it, montoGravado) - (Amount(it) + ItbisOf(it) + TaxOf(it, montoGravado))) <= 0.0109 + TaxTolerance(it)
  {
    PartsAreLineParts(it, montoGravado);
    PlainParts(it, montoGravado);
    FiveNear(it, montoGravado, Gravado18, Gravado16, Gravado0, Exento, NoFacturable);
    FiveNear(it, montoGravado, Itbis18, Itbis16, Especifico, Advalorem, Otros);
    hide Exact, Tolerance, LinePart, Amount, ItbisOf, DeclaredItem;
  }

  lemma FiveNear(it: Item, m: int, c1: Column, c2: Column, c3: Column, c4: Column, c5: Column)
    requires Requested(it)
    ensures Abs(LinePart(c1, m, it) + LinePart(c2, m, it) + LinePart(c3, m, it) + LinePart(c4, m, it) + LinePart(c5, m, it)
                - (Exact(c1, m, it) + Exact(c2, m, it) + Exact(c3, m, it) + Exact(c4, m, it) + Exact(c5, m, it)))
            <= Tolerance(c1, it) + Tolerance(c2, it) + Tolerance(c3, it) + Tolerance(c4, it) + Tolerance(c5, it)
  {
    hide LinePart, Exact, Tolerance, Requested, Abs;
    ItemNear(c1, m, it);
    ItemNear(c2, m, it);
    ItemNear(c3, m, it);
    ItemNear(c4, m, it);
    ItemNear(c5, m, it);
    FiveSums(LinePart(c1, m, it), LinePart(c2, m, it), LinePart(c3, m, it), LinePart(c4, m, it), LinePart(c5, m, it),
             Exact(c1, m, it), Exact(c2, m, it), Exact(c3, m, it), Exact(c4, m, it), Exact(c5, m, it),
             Tolerance(c1, it), Tolerance(c2, it), Tolerance(c3, it), Tolerance(c4, it), Tolerance(c5, it));
  }

  lemma FiveSums(a: real, b: real, c: real, d: real, e: real, v: real, w: real, x: real, y: real, z: real,
                 i: real, j: real, k: real, m: real, n: real)
    requires Abs(a - v) <= i && Abs(b - w) <= j && Abs(c - x) <= k && Abs(d - y) <= m && Abs(e - z) <= n
    ensures Abs(a + b + c + d + e - (v + w + x + y + z)) <= i + j + k + m + n
  {
    ThreeSums(a, b, c, v, w, x, i, j, k);
    ThreeSums(a + b + c, d, e, v + w + x, y, z, i + j + k, m, n);
  }

  lemma ThreeSums(a: real, b: real, c: real, x: real, y: real, z: real, d: real, e: real, f: real)
    requires Abs(a - x) <= d && Abs(b - y) <= e && Abs(c - z) <= f
    ensures Abs(a + b + c - (x + y + z)) <= d + e + f
  {}

  lemma PartsAreLineParts(it: Item, m: int)
    requires ItemOk(it)
    ensures DeclaredItem(it, m)
         == LinePart(Gravado18, m, it) + LinePart(Gravado16, m, it) + LinePart(Gravado0, m, it) + LinePart(Exento, m, it)
            + LinePart(NoFacturable, m, it) + LinePart(Itbis18, m, it) + LinePart(Itbis16, m, it)
            + LinePart(Especifico, m, it) + LinePart(Advalorem, m, it) + LinePart(Otros, m, it)
  {
    hide Part, Assess;
  }

  lemma PlainParts(it: Item, m: int)
    requires Requested(it)
    ensures Exact(Gravado18, m, it) + Exact(Gravado16, m, it) + Exact(Gravado0, m, it) + Exact(Exento, m, it) + Exact(NoFacturable, m, it)
         == Amount(it)
    ensures Exact(Itbis18, m, it) + Exact(Itbis16, m, it) == ItbisOf(it)
    ensures Tolerance(Gravado18, it) + Tolerance(Gravado16, it) + Tolerance(Gravado0, it) + Tolerance(Exento, it) + Tolerance(NoFacturable, it)
            + Tolerance(Itbis18, it) + Tolerance(Itbis16, it) <= 0.0109
  {
    hide Amount;
  }

  lemma {:induction false} TotalOverItems(items: seq<Item>, montoGravado: int)
    requires forall it :: it in items ==> ItemOk(it) && Requested(it)
    ensures TotalsOf(Lines(items, montoGravado)).totalAmount == DeclaredTotal(items, montoGravado)
  {
    TotalIsAllColumns(Lines(items, montoGravado));
    hide TotalsOf;
    ColumnsOverItems(items, montoGravado);
  }

  lemma {:induction false} ColumnsOverItems(items: seq<Item>, montoGravado: int)
    requires forall it :: it in items ==> ItemOk(it)
    ensures AllColumns(Lines(items, montoGravado)) == Sum(items, it => DeclaredItem(it, montoGravado))
  {
    if items != [] {
      var last := |items| - 1;
      ColumnsOverItems(items[..last], montoGravado);
      assert Lines(items, montoGravado)[..last] == Lines(items[..last], montoGravado);
      assert items[last] in items;
      NextParts(Lines(items, montoGravado));
      hide AllParts, AllColumns;
    }
  }

  function DeclaredTotal(items: seq<Item>, montoGravado: int): real {
    Sum(items, it => DeclaredItem(it, montoGravado))
  }

  /** Amount plus ITBIS plus additional tax of every item, without rounding. */
  function ExactTotal(items: seq<Item>, montoGravado: int): real {
    Sum(items, it => Amount(it) + ItbisOf(it) + TaxOf(it, montoGravado))
  }

  /** 0.0109 a line and the tolerances of its taxes. */
  function TotalTolerance(items: seq<Item>): real {
    Sum(items, it => 0.0109 + TaxTolerance(it))
  }

  /** The declared total is, for any number of lines with any taxes, within 0.0109 a
      line and the tolerances of the taxes of the exact total. */
  lemma {:induction false} TotalIsExact(items: seq<Item>, montoGravado: int)
    requires forall it :: it in items ==> ItemOk(it) && Requested(it)
    ensures Abs(TotalsOf(Lines(items, montoGravado)).totalAmount - ExactTotal(items, montoGravado)) <= TotalTolerance(items)
  {
    hide TotalsOf, DeclaredTotal, ExactTotal, TotalTolerance;
    TotalOverItems(items, montoGravado);
    ItemErrorsAdd(items, montoGravado);
  }

  lemma {:induction false} ItemErrorsAdd(items: seq<Item>, montoGravado: int)
    requires forall it :: it in items ==> ItemOk(it) && Requested(it)
    ensures Abs(DeclaredTotal(items, montoGravado) - ExactTotal(items, montoGravado)) <= TotalTolerance(items)
  {
    hide DeclaredItem, Amount, ItbisOf, TaxOf, TaxTolerance, Requested, Abs;
    forall it | it in items
      ensures Abs(DeclaredItem(it, montoGravado) - (Amount(it) + ItbisOf(it) + TaxOf(it, montoGravado))) <= 0.0109 + TaxTolerance(it)
    {
      DeclaredItemNear(it, montoGravado);
    }
    SumErrorSum(items, it => DeclaredItem(it, montoGravado), it => Amount(it) + ItbisOf(it) + TaxOf(it, montoGravado), it => 0.0109 + TaxTolerance(it));
  }

  /** Without additional taxes that is 0.0109 a line. */
  lemma {:induction false} TotalIsNearExact(items: seq<Item>, montoGravado: int)
    requires forall it :: it in items ==> ItemOk(it) && Requested(it) && it.additionalTaxCode == None
    ensures Abs(TotalsOf(Lines(items, montoGravado)).totalAmount - Sum(items, it => Amount(it) + ItbisOf(it))) <= 0.0109 * (|items| as real)
  {
    hide TotalsOf, DeclaredItem, Amount, ItbisOf, Requested, Abs;
    TotalOverItems(items, montoGravado);
    forall it | it in items
      ensures Abs(DeclaredItem(it, montoGravado) - (Amount(it) + ItbisOf(it))) <= 0.0109
    {
      DeclaredItemNear(it, montoGravado);
      assert TaxOf(it, montoGravado) == 0.0 && TaxTolerance(it) == 0.0;
    }
    SumErrorBound(items, it => DeclaredItem(it, montoGravado), it => Amount(it) + ItbisOf(it), 0.0109);
  }

  // ----- stored lines -----

  /** Each stored line: its number, the rate of its indicator, and amounts within the
      rounding of the exact ones. */
  lemma StoredLineIsExact(items: seq<Item>, k: nat)
    requires k < |items| && Requested(items[k])
    ensures var it, line := items[k], PersistLines(items)[k];
            && line.lineNumber == k + 1
            && line.itbisRate == (if IndicatorOf(it) == 1 then 18 else if IndicatorOf(it) == 2 then 16 else 0)
            && Abs(line.subtotal - Amount(it)) <= 0.005
            && Abs(line.itbisAmount - ItbisOf(it)) <= 0.0059
  {
    var it := items[k];
    IndicatorMatches(it);
    SubtotalNear(it);
    ItbisAmountNear(LineSubtotal(it), Amount(it));
    CentsOfNothing();
    hide Amount, LineSubtotal;
  }
}
