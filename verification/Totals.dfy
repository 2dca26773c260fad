/** Line classification, document totals and the additional-tax table. */
module Totals {
  import opened EcfTypes
  import opened Rounding
  import opened Isc

  // ----- per-line classification, shared by document and database -----

  function Rate(it: Item): (r: int)
    ensures ItemOk(it) ==> r in {0, 16, 18}
  {
    if it.itbisRate.Some? then it.itbisRate.value else 18
  }

  function ResolveIndicador(it: Item, rate: int): int {
    if it.indicadorFacturacion.Some? then it.indicadorFacturacion.value
    else if rate == 18 then 1
    else if rate == 16 then 2
    else if rate == 0 then 3
    else 1
  }

  function EffectiveItbisRate(indicador: int, rate: int): (r: int)
    ensures r in {0, 16, 18}
  {
    if indicador == 1 then 18
    else if indicador == 2 then 16
    else if indicador == 3 || indicador == 4 || indicador == 0 then 0
    else if rate == 16 then 16
    else if rate == 0 then 0
    else 18
  }

  /** `x * (rate / 100)` for the three rates in force. */
  function Percent(x: real, rate: int): real
    requires rate in {0, 16, 18}
  {
    if rate == 18 then x * 0.18 else if rate == 16 then x * 0.16 else 0.0
  }

  function LineItbisAmount(lineSubtotal: real, indicador: int, rate: int): real {
    Round2(Percent(lineSubtotal, EffectiveItbisRate(indicador, rate)))
  }

  function RawAmount(it: Item): real {
    it.quantity * it.unitPrice - OrElse(it.discount, 0.0) + OrElse(it.surcharge, 0.0)
  }

  function LineSubtotal(it: Item): real {
    Round2(RawAmount(it))
  }

  function Indicador(it: Item): int {
    ResolveIndicador(it, Rate(it))
  }

  // ----- where a line's amounts go -----

  /** The columns of the document totals. */
  datatype Column = Gravado18 | Gravado16 | Gravado0 | Exento | NoFacturable | Itbis18 | Itbis16 | Descuento | Especifico | Advalorem | Otros

  datatype Tax = NoTax | Tax(column: Column, amount: real)

  /** Additional tax of a line, by the number its three-digit code names. */
  function LineTax(it: Item, montoGravado: int): (t: Tax)
    requires ItemOk(it)
    ensures t.Tax? ==> t.column in {Especifico, Advalorem, Otros} && IsCents(t.amount)
    ensures it.additionalTaxCode.None? ==> t.NoTax?
  {
    if it.additionalTaxCode.None? then NoTax
    else
      var code, tasa := it.additionalTaxCode.value, OrElse(it.additionalTaxRate, 0.0);
      if 6 <= code <= 18 then Tax(Especifico, IscEspecificoAlcohol(it))
      else if 19 <= code <= 22 then Tax(Especifico, IscEspecificoCigarrillo(it))
      else if 23 <= code <= 35 then Tax(Advalorem, IscAdvaloremAlcohol(it, IscEspecificoAlcohol(it), Rate(it), tasa))
      else if 36 <= code <= 39 then Tax(Advalorem, IscAdvaloremCigarrillo(it, Rate(it), tasa))
      else if 1 <= code <= 5 then
        var own := if it.indicadorMontoGravado.Some? then it.indicadorMontoGravado.value else 0;
        Tax(Otros, OtrosImpuestos(LineSubtotal(it), tasa, if own != 0 then own else montoGravado, Rate(it)))
      else NoTax
  }

  /** What one pass of the totals loop works with. */
  datatype Line = Line(
    subtotal: real,
    indicador: int,
    rate: int,
    discount: real,
    code: Option<nat>,
    tasa: real,
    tax: Tax)

  function Assess(it: Item, montoGravado: int): Line
    requires ItemOk(it)
  {
    Line(LineSubtotal(it), Indicador(it), Rate(it), OrElse(it.discount, 0.0),
         it.additionalTaxCode, OrElse(it.additionalTaxRate, 0.0), LineTax(it, montoGravado))
  }

  function Lines(items: seq<Item>, montoGravado: int): (ls: seq<Line>)
    requires forall it :: it in items ==> ItemOk(it)
    ensures |ls| == |items|
    ensures forall i :: 0 <= i < |items| ==> ls[i] == Assess(items[i], montoGravado)
  {
    seq(|items|, i requires 0 <= i < |items| => Assess(items[i], montoGravado))
  }

  ghost predicate LineOk(l: Line) {
    && IsCents(l.subtotal)
    && (l.tax.Tax? ==> l.tax.column in {Especifico, Advalorem, Otros} && IsCents(l.tax.amount))
    && (l.code.None? ==> l.tax.NoTax?)
  }

  lemma AssessedOk(it: Item, montoGravado: int)
    requires ItemOk(it)
    ensures LineOk(Assess(it, montoGravado))
  {}

  /** The column that receives the subtotal; an unknown indicator falls back on
      the rate, and then a 0% line goes nowhere. */
  function SubtotalColumn(l: Line): Option<Column> {
    if l.indicador == 0 then Some(NoFacturable)
    else if l.indicador == 4 then Some(Exento)
    else if l.indicador == 3 then Some(Gravado0)
    else if l.indicador == 1 then Some(Gravado18)
    else if l.indicador == 2 then Some(Gravado16)
    else if l.rate == 18 then Some(Gravado18)
    else if l.rate == 16 then Some(Gravado16)
    else None
  }

  /** What one line adds to a column. */
  function Part(c: Column, l: Line): real {
    match c
    case Gravado18 | Gravado16 | Gravado0 | Exento | NoFacturable => if SubtotalColumn(l) == Some(c) then l.subtotal else 0.0
    case Itbis18 => if SubtotalColumn(l) == Some(Gravado18) then LineItbisAmount(l.subtotal, l.indicador, l.rate) else 0.0
    case Itbis16 => if SubtotalColumn(l) == Some(Gravado16) then LineItbisAmount(l.subtotal, l.indicador, l.rate) else 0.0
    case Descuento => l.discount
    case Especifico | Advalorem | Otros => if l.tax.Tax? && l.tax.column == c then l.tax.amount else 0.0
  }

  function ColumnSum(ls: seq<Line>, c: Column): real {
    Sum(ls, l => Part(c, l))
  }

  // ----- the additional-tax table -----

  datatype TaxEntry = TaxEntry(tipoImpuesto: nat, tasa: real, especifico: real, advalorem: real, otros: real) {
    function Amount(c: Column): real {
      match c
      case Especifico => especifico
      case Advalorem => advalorem
      case Otros => otros
      case _ => 0.0
    }

    function Add(t: Tax): TaxEntry {
      match t
      case Tax(Especifico, amount) => this.(especifico := Round2(especifico + amount))
      case Tax(Advalorem, amount) => this.(advalorem := Round2(advalorem + amount))
      case Tax(Otros, amount) => this.(otros := Round2(otros + amount))
      case _ => this
    }
  }

  function FindEntry(entries: seq<TaxEntry>, code: nat): (r: Option<nat>)
    ensures r.Some? ==> r.value < |entries| && entries[r.value].tipoImpuesto == code
    ensures r.None? ==> forall k :: 0 <= k < |entries| ==> entries[k].tipoImpuesto != code
  {
    if entries == [] then None
    else
      match FindEntry(entries[..|entries| - 1], code)
      case Some(k) => Some(k)
      case None => if entries[|entries| - 1].tipoImpuesto == code then Some(|entries| - 1) else None
  }

  /** One line against the table: find or append the entry of its code, then add. */
  function AddLine(entries: seq<TaxEntry>, l: Line): seq<TaxEntry> {
    if l.code.None? then entries
    else
      match FindEntry(entries, l.code.value)
      case Some(k) => entries[k := entries[k].Add(l.tax)]
      case None => entries + [TaxEntry(l.code.value, l.tasa, 0.0, 0.0, 0.0).Add(l.tax)]
  }

  function TaxTable(ls: seq<Line>): seq<TaxEntry> {
    if ls == [] then [] else AddLine(TaxTable(ls[..|ls| - 1]), ls[|ls| - 1])
  }

  // ----- totals -----

  datatype InvoiceTotals = InvoiceTotals(
    subtotalBeforeTax: real,
    totalDiscount: real,
    taxableAmount18: real,
    taxableAmount16: real,
    taxableAmount0: real,
    exemptAmount: real,
    itbis18: real,
    itbis16: real,
    totalItbis: real,
    totalIscEspecifico: real,
    totalIscAdvalorem: real,
    totalIsc: real,
    totalOtrosImpuestos: real,
    montoNoFacturable: real,
    totalAmount: real,
    additionalTaxEntries: seq<TaxEntry>)

  /** The totals as plain sums: none of the final roundings changes anything but
      the discount. */
  function TotalsOf(ls: seq<Line>): InvoiceTotals {
    var subtotalBeforeTax := ColumnSum(ls, Gravado18) + ColumnSum(ls, Gravado16) + ColumnSum(ls, Gravado0) + ColumnSum(ls, Exento);
    var totalItbis := ColumnSum(ls, Itbis18) + ColumnSum(ls, Itbis16);
    var totalIsc := ColumnSum(ls, Especifico) + ColumnSum(ls, Advalorem);
    InvoiceTotals(
      subtotalBeforeTax, Round2(ColumnSum(ls, Descuento)),
      ColumnSum(ls, Gravado18), ColumnSum(ls, Gravado16), ColumnSum(ls, Gravado0), ColumnSum(ls, Exento),
      ColumnSum(ls, Itbis18), ColumnSum(ls, Itbis16), totalItbis,
      ColumnSum(ls, Especifico), ColumnSum(ls, Advalorem), totalIsc,
      ColumnSum(ls, Otros), ColumnSum(ls, NoFacturable),
      subtotalBeforeTax + totalItbis + totalIsc + ColumnSum(ls, Otros) + ColumnSum(ls, NoFacturable),
      TaxTable(ls))
  }

  lemma ColumnIsCents(ls: seq<Line>, c: Column)
    requires c != Descuento && forall l :: l in ls ==> LineOk(l)
    ensures IsCents(ColumnSum(ls, c))
  {
    assert IsCents(0.0);
    SumOfCents(ls, l => Part(c, l));
  }

  lemma NextColumns(ls: seq<Line>, i: nat)
    requires i < |ls|
    ensures forall c: Column :: ColumnSum(ls[..i + 1], c) == ColumnSum(ls[..i], c) + Part(c, ls[i])
  {
    forall c: Column
      ensures ColumnSum(ls[..i + 1], c) == ColumnSum(ls[..i], c) + Part(c, ls[i])
    {
      SumSnoc(ls, i, l => Part(c, l));
    }
  }

  /** The accumulators, one per column. */
  type Accumulators = map<Column, real>

  ghost predicate Accumulated(acc: Accumulators, ls: seq<Line>) {
    forall c: Column :: c in acc && acc[c] == ColumnSum(ls, c)
  }

  predicate OfSubtotal(c: Column) {
    c.Gravado18? || c.Gravado16? || c.Gravado0? || c.Exento? || c.NoFacturable? || c.Itbis18? || c.Itbis16?
  }

  /** The subtotal goes to the column of its indicator, with its ITBIS. */
  method AccumulateSubtotal(acc: Accumulators, l: Line) returns (r: Accumulators)
    requires forall c: Column :: c in acc
    ensures forall c: Column :: c in r && r[c] == acc[c] + if OfSubtotal(c) then Part(c, l) else 0.0
  {
    r := acc;
    if l.indicador == 0 {
      r := r[NoFacturable := r[NoFacturable] + l.subtotal];
    } else if l.indicador == 4 {
      r := r[Exento := r[Exento] + l.subtotal];
    } else if l.indicador == 3 {
      r := r[Gravado0 := r[Gravado0] + l.subtotal];
    } else if l.indicador == 1 {
      r := r[Gravado18 := r[Gravado18] + l.subtotal];
      r := r[Itbis18 := r[Itbis18] + LineItbisAmount(l.subtotal, l.indicador, l.rate)];
    } else if l.indicador == 2 {
      r := r[Gravado16 := r[Gravado16] + l.subtotal];
      r := r[Itbis16 := r[Itbis16] + LineItbisAmount(l.subtotal, l.indicador, l.rate)];
    } else if l.rate == 18 {
      r := r[Gravado18 := r[Gravado18] + l.subtotal];
      r := r[Itbis18 := r[Itbis18] + Round2(l.subtotal * 0.18)];
    } else if l.rate == 16 {
      r := r[Gravado16 := r[Gravado16] + l.subtotal];
      r := r[Itbis16 := r[Itbis16] + Round2(l.subtotal * 0.16)];
    }
  }

  /** One pass of the loop: subtotal, discount and additional tax. */
  method AccumulateLine(acc: Accumulators, l: Line) returns (r: Accumulators)
    requires LineOk(l) && forall c: Column :: c in acc
    ensures forall c: Column :: c in r && r[c] == acc[c] + Part(c, l)
  {
    r := AccumulateSubtotal(acc, l);
    r := r[Descuento := r[Descuento] + l.discount];
    if l.tax.Tax? {
      r := r[l.tax.column := r[l.tax.column] + l.tax.amount];
    }
  }

  /** The accumulation loop over the lines. */
  method AccumulateLines(items: seq<Item>, montoGravado: int) returns (acc: Accumulators, entries: seq<TaxEntry>)
    requires forall it :: it in items ==> ItemOk(it)
    ensures Accumulated(acc, Lines(items, montoGravado))
    ensures entries == TaxTable(Lines(items, montoGravado))
  {
    acc := map[Gravado18 := 0.0, Gravado16 := 0.0, Gravado0 := 0.0, Exento := 0.0, NoFacturable := 0.0,
               Itbis18 := 0.0, Itbis16 := 0.0, Descuento := 0.0, Especifico := 0.0, Advalorem := 0.0, Otros := 0.0];
    entries := [];
    ghost var ls := Lines(items, montoGravado);
    forall c: Column
      ensures c in acc && acc[c] == 0.0
    {
      match c {
        case Gravado18 | Gravado16 | Gravado0 | Exento | NoFacturable =>
        case Itbis18 | Itbis16 | Descuento | Especifico | Advalorem | Otros =>
      }
    }
    EmptyColumns(acc);
    assert ls[..0] == [];
    var i := 0;
    while i < |items|
      invariant 0 <= i <= |items|
      invariant Accumulated(acc, ls[..i])
      invariant entries == TaxTable(ls[..i])
    {
      var line := Assess(items[i], montoGravado);
      NextColumns(ls, i);
      AssessedOk(items[i], montoGravado);
      assert ls[..i + 1][..i] == ls[..i];
      acc := AccumulateLine(acc, line);
      entries := AddLine(entries, line);
      i := i + 1;
    }
    assert ls[..i] == ls;
  }

  lemma EmptyColumns(acc: Accumulators)
    requires forall c: Column :: c in acc && acc[c] == 0.0
    ensures Accumulated(acc, [])
  {}

  lemma FiveCents(a: real, b: real, c: real, d: real, e: real)
    requires IsCents(a) && IsCents(b) && IsCents(c) && IsCents(d) && IsCents(e)
    ensures IsCents(a + b + c + d + e)
  {
    CentsClosed(a, b);
    CentsClosed(a + b, c);
    CentsClosed(a + b + c, d);
    CentsClosed(a + b + c + d, e);
  }

  lemma CentsOfNothing()
    ensures IsCents(0.0)
  {}

  /** `Round2` where nothing is left to round. */
  function RoundCents(x: real): (r: real)
    requires IsCents(x)
    ensures r == x
  {
    Round2(x)
  }

  /** The totals of a document: the accumulators, rounded. */
  method CalculateTotals(items: seq<Item>, montoGravado: int) returns (t: InvoiceTotals)
    requires forall it :: it in items ==> ItemOk(it)
    ensures t == TotalsOf(Lines(items, montoGravado))
  {
    var acc, entries := AccumulateLines(items, montoGravado);
    ghost var ls := Lines(items, montoGravado);
    forall c: Column | c != Descuento
      ensures IsCents(acc[c])
    {
      forall l | l in ls ensures LineOk(l) {
        var i :| 0 <= i < |ls| && ls[i] == l;
        AssessedOk(items[i], montoGravado);
      }
      ColumnIsCents(ls, c);
    }
    t := RoundTotals(acc, entries);
  }

  function RoundTotals(acc: Accumulators, entries: seq<TaxEntry>): (t: InvoiceTotals)
    requires forall c: Column :: c in acc && (c != Descuento ==> IsCents(acc[c]))
    ensures t.taxableAmount18 == acc[Gravado18] && t.taxableAmount16 == acc[Gravado16] && t.taxableAmount0 == acc[Gravado0]
    ensures t.exemptAmount == acc[Exento] && t.montoNoFacturable == acc[NoFacturable]
    ensures t.itbis18 == acc[Itbis18] && t.itbis16 == acc[Itbis16]
    ensures t.totalIscEspecifico == acc[Especifico] && t.totalIscAdvalorem == acc[Advalorem] && t.totalOtrosImpuestos == acc[Otros]
    ensures t.totalDiscount == Round2(acc[Descuento]) && t.additionalTaxEntries == entries
    ensures t.subtotalBeforeTax == acc[Gravado18] + acc[Gravado16] + acc[Gravado0] + acc[Exento]
    ensures t.totalItbis == acc[Itbis18] + acc[Itbis16] && t.totalIsc == acc[Especifico] + acc[Advalorem]
    ensures t.totalAmount == t.subtotalBeforeTax + t.totalItbis + t.totalIsc + t.totalOtrosImpuestos + t.montoNoFacturable
  {
    hide IsCents;
    CentsOfNothing();
    FiveCents(acc[Gravado18], acc[Gravado16], acc[Gravado0], acc[Exento], 0.0);
    FiveCents(acc[Itbis18], acc[Itbis16], 0.0, 0.0, 0.0);
    FiveCents(acc[Especifico], acc[Advalorem], 0.0, 0.0, 0.0);
    var subtotalBeforeTax := RoundCents(acc[Gravado18] + acc[Gravado16] + acc[Gravado0] + acc[Exento]);
    var totalItbis := RoundCents(acc[Itbis18] + acc[Itbis16]);
    var totalIsc := RoundCents(acc[Especifico] + acc[Advalorem]);
    FiveCents(subtotalBeforeTax, totalItbis, totalIsc, acc[Otros], acc[NoFacturable]);
    var totalAmount := RoundCents(subtotalBeforeTax + totalItbis + totalIsc + acc[Otros] + acc[NoFacturable]);
    InvoiceTotals(
      RoundCents(subtotalBeforeTax), Round2(acc[Descuento]),
      RoundCents(acc[Gravado18]), RoundCents(acc[Gravado16]), RoundCents(acc[Gravado0]), RoundCents(acc[Exento]),
      RoundCents(acc[Itbis18]), RoundCents(acc[Itbis16]), RoundCents(totalItbis),
      RoundCents(acc[Especifico]), RoundCents(acc[Advalorem]), RoundCents(totalIsc),
      RoundCents(acc[Otros]), RoundCents(acc[NoFacturable]), RoundCents(totalAmount), entries)
  }
}
