/** What the totals of a document mean: independence of the line order and agreement
    with the persisted lines. */
module TotalsFacts {
  import opened Rounding
  import opened Isc
  import opened Totals

  // ----- sums over items -----

  function LinePart(c: Column, montoGravado: int, it: Item): real {
    if ItemOk(it) then Part(c, Assess(it, montoGravado)) else 0.0
  }

  lemma {:induction false} ColumnOverItems(items: seq<Item>, c: Column, montoGravado: int)
    requires forall it :: it in items ==> ItemOk(it)
    ensures ColumnSum(Lines(items, montoGravado), c) == Sum(items, it => LinePart(c, montoGravado, it))
  {
    if items != [] {
      var last := |items| - 1;
      var ls := Lines(items, montoGravado);
      assert ls[..last] == Lines(items[..last], montoGravado);
      ColumnOverItems(items[..last], c, montoGravado);
      assert items[last] in items;
    }
  }

  /** Totals do not depend on the order of the lines. */
  lemma {:induction false} TotalsIgnoreOrder(items: seq<Item>, others: seq<Item>, montoGravado: int)
    requires multiset(items) == multiset(others)
    requires forall it :: it in items ==> ItemOk(it)
    requires forall it :: it in others ==> ItemOk(it)
    ensures TotalsOf(Lines(items, montoGravado)).(additionalTaxEntries := [])
         == TotalsOf(Lines(others, montoGravado)).(additionalTaxEntries := [])
  {
    forall c: Column
      ensures ColumnSum(Lines(items, montoGravado), c) == ColumnSum(Lines(others, montoGravado), c)
    {
      ColumnOverItems(items, c, montoGravado);
      ColumnOverItems(others, c, montoGravado);
      SumPermutes(items, others, it => LinePart(c, montoGravado, it));
    }
  }

  // ----- persisted lines -----

  datatype InvoiceLine = InvoiceLine(lineNumber: nat, itbisRate: int, itbisAmount: real, subtotal: real)

  function PersistLine(it: Item, index: nat): InvoiceLine {
    var rate := Rate(it);
    var indicador := ResolveIndicador(it, rate);
    InvoiceLine(index + 1, EffectiveItbisRate(indicador, rate), LineItbisAmount(LineSubtotal(it), indicador, rate), LineSubtotal(it))
  }

  function PersistLines(items: seq<Item>): (lines: seq<InvoiceLine>)
    ensures |lines| == |items|
  {
    seq(|items|, i requires 0 <= i < |items| => PersistLine(items[i], i))
  }

  /** A subtotal that reaches no column of the document. */
  function DroppedAmount(l: Line): real {
    if SubtotalColumn(l).None? then l.subtotal else 0.0
  }

  function SubtotalParts(l: Line): real {
    Part(Gravado18, l) + Part(Gravado16, l) + Part(Gravado0, l) + Part(Exento, l) + Part(NoFacturable, l)
  }

  lemma SubtotalGoesOnce(l: Line)
    ensures l.subtotal == SubtotalParts(l) + DroppedAmount(l)
    ensures 0 <= l.indicador <= 4 ==> DroppedAmount(l) == 0.0
  {}

  lemma ItbisGoesOnce(l: Line)
    requires l.rate in {0, 16, 18}
    ensures LineItbisAmount(l.subtotal, l.indicador, l.rate) == Part(Itbis18, l) + Part(Itbis16, l)
  {
    assert IsCents(0.0);
  }

  lemma {:induction false} LineSums(items: seq<Item>, montoGravado: int)
    requires forall it :: it in items ==> ItemOk(it)
    ensures var ls, rows := Lines(items, montoGravado), PersistLines(items);
            && Sum(rows, (r: InvoiceLine) => r.itbisAmount) == ColumnSum(ls, Itbis18) + ColumnSum(ls, Itbis16)
            && Sum(rows, (r: InvoiceLine) => r.subtotal)
               == ColumnSum(ls, Gravado18) + ColumnSum(ls, Gravado16) + ColumnSum(ls, Gravado0) + ColumnSum(ls, Exento)
                  + ColumnSum(ls, NoFacturable) + Sum(ls, l => DroppedAmount(l))
  {
    if items != [] {
      var last := |items| - 1;
      LineSums(items[..last], montoGravado);
      assert Lines(items, montoGravado)[..last] == Lines(items[..last], montoGravado);
      assert PersistLines(items)[..last] == PersistLines(items[..last]);
      var l := Assess(items[last], montoGravado);
      assert Lines(items, montoGravado)[last] == l;
      SubtotalGoesOnce(l);
      ItbisGoesOnce(l);
    }
  }

  lemma {:induction false} NothingDropped(ls: seq<Line>)
    requires forall l :: l in ls ==> 0 <= l.indicador <= 4
    ensures Sum(ls, l => DroppedAmount(l)) == 0.0
  {
    if ls != [] {
      NothingDropped(ls[..|ls| - 1]);
    }
  }

  /** The stored lines agree with the declared document: ITBIS always, subtotals
      up to lines whose indicator is unknown and whose rate is 0. */
  lemma {:induction false} PersistedLinesAgree(items: seq<Item>, montoGravado: int)
    requires forall it :: it in items ==> ItemOk(it)
    ensures Sum(PersistLines(items), (r: InvoiceLine) => r.itbisAmount) == TotalsOf(Lines(items, montoGravado)).totalItbis
    ensures var t := TotalsOf(Lines(items, montoGravado));
            Sum(PersistLines(items), (r: InvoiceLine) => r.subtotal)
            == t.subtotalBeforeTax + t.montoNoFacturable + Sum(Lines(items, montoGravado), l => DroppedAmount(l))
    ensures (forall it :: it in items ==> 0 <= Indicador(it) <= 4) ==>
              var t := TotalsOf(Lines(items, montoGravado));
              Sum(PersistLines(items), (r: InvoiceLine) => r.subtotal) == t.subtotalBeforeTax + t.montoNoFacturable
  {
    LineSums(items, montoGravado);
    if forall it :: it in items ==> 0 <= Indicador(it) <= 4 {
      var ls := Lines(items, montoGravado);
      forall l | l in ls ensures 0 <= l.indicador <= 4 {
        var i :| 0 <= i < |ls| && ls[i] == l;
        assert items[i] in items;
      }
      NothingDropped(ls);
    }
  }

  // ----- the total -----

  /** Everything one line adds to the total. */
  function AllParts(l: Line): real {
    SubtotalParts(l) + Part(Itbis18, l) + Part(Itbis16, l) + Part(Especifico, l) + Part(Advalorem, l) + Part(Otros, l)
  }

  function AllColumns(ls: seq<Line>): real {
    ColumnSum(ls, Gravado18) + ColumnSum(ls, Gravado16) + ColumnSum(ls, Gravado0) + ColumnSum(ls, Exento)
    + ColumnSum(ls, NoFacturable) + ColumnSum(ls, Itbis18) + ColumnSum(ls, Itbis16)
    + ColumnSum(ls, Especifico) + ColumnSum(ls, Advalorem) + ColumnSum(ls, Otros)
  }

  lemma NextParts(ls: seq<Line>)
    requires ls != []
    ensures AllColumns(ls) == AllColumns(ls[..|ls| - 1]) + AllParts(ls[|ls| - 1])
  {
    NextColumns(ls, |ls| - 1);
    assert ls[..|ls| - 1 + 1] == ls;
    hide ColumnSum;
  }

  lemma TotalIsAllColumns(ls: seq<Line>)
    ensures TotalsOf(ls).totalAmount == AllColumns(ls)
  {}
}
