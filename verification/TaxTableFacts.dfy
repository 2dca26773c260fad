/** The additional-tax table as a regrouping of the lines, and the balance check. */
module TaxTableFacts {
  import opened EcfTypes
  import opened Rounding
  import opened Isc
  import opened Totals
  import opened TotalsFacts

  // ----- table -----

  /** What the lines of one code add to a column. */
  function CodePart(c: Column, code: nat, l: Line): real {
    if l.code == Some(code) then Part(c, l) else 0.0
  }

  function CodeSum(ls: seq<Line>, c: Column, code: nat): real {
    Sum(ls, l => CodePart(c, code, l))
  }

  predicate IsTaxColumn(c: Column) {
    c == Especifico || c == Advalorem || c == Otros
  }

  ghost predicate OneEntryPerCode(entries: seq<TaxEntry>) {
    forall j, k :: 0 <= j < k < |entries| ==> entries[j].tipoImpuesto != entries[k].tipoImpuesto
  }

  ghost predicate EntriesInCents(entries: seq<TaxEntry>) {
    forall k, c: Column :: 0 <= k < |entries| ==> IsCents(entries[k].Amount(c))
  }

  /** Every entry holds the sums of its code's lines. */
  ghost predicate EntriesAreSums(entries: seq<TaxEntry>, ls: seq<Line>) {
    forall k, c :: 0 <= k < |entries| && IsTaxColumn(c) ==> entries[k].Amount(c) == CodeSum(ls, c, entries[k].tipoImpuesto)
  }

  ghost predicate HasCode(ls: seq<Line>, code: nat) {
    exists i :: 0 <= i < |ls| && ls[i].code == Some(code)
  }

  lemma AddAmounts(e: TaxEntry, t: Tax, c: Column)
    requires IsTaxColumn(c) && IsCents(e.Amount(c))
    requires t.Tax? ==> IsTaxColumn(t.column) && IsCents(t.amount)
    ensures e.Add(t).Amount(c) == e.Amount(c) + if t.Tax? && t.column == c then t.amount else 0.0
    ensures IsCents(e.Add(t).Amount(c)) && e.Add(t).tipoImpuesto == e.tipoImpuesto
  {
    if t.Tax? && t.column == c {
      CentsClosed(e.Amount(c), t.amount);
    }
  }

  lemma {:induction false} SumReplace<T>(xs: seq<T>, k: nat, x: T, f: T -> real)
    requires k < |xs|
    ensures Sum(xs[k := x], f) == Sum(xs, f) - f(xs[k]) + f(x)
  {
    var last := |xs| - 1;
    var ys := xs[k := x];
    if k == last {
      assert ys[..last] == xs[..last];
    } else {
      assert ys[..last] == xs[..last][k := x];
      SumReplace(xs[..last], k, x, f);
    }
  }

  lemma {:induction false} NoCodeNoSum(ls: seq<Line>, c: Column, code: nat)
    requires forall i :: 0 <= i < |ls| ==> ls[i].code != Some(code)
    ensures CodeSum(ls, c, code) == 0.0
  {
    if ls != [] {
      NoCodeNoSum(ls[..|ls| - 1], c, code);
    }
  }

  /** The table before and after one line. */
  lemma AddLineColumn(entries: seq<TaxEntry>, l: Line, c: Column)
    requires LineOk(l) && EntriesInCents(entries) && IsTaxColumn(c)
    ensures Sum(AddLine(entries, l), (e: TaxEntry) => e.Amount(c)) == Sum(entries, (e: TaxEntry) => e.Amount(c)) + Part(c, l)
  {
    var f := (e: TaxEntry) => e.Amount(c);
    if l.code.Some? {
      match FindEntry(entries, l.code.value) {
        case Some(k) =>
          AddAmounts(entries[k], l.tax, c);
          SumReplace(entries, k, entries[k].Add(l.tax), f);
        case None =>
          var e := TaxEntry(l.code.value, l.tasa, 0.0, 0.0, 0.0);
          CentsOfNothing();
          AddAmounts(e, l.tax, c);
          hide IsCents, Round2;
          var after := entries + [e.Add(l.tax)];
          assert after[..|after| - 1] == entries;
      }
    }
  }

  lemma AddLineEntry(entries: seq<TaxEntry>, ls: seq<Line>, l: Line, k: nat, c: Column)
    requires LineOk(l) && EntriesInCents(entries) && EntriesAreSums(entries, ls) && OneEntryPerCode(entries)
    requires forall code: nat :: HasCode(ls, code) ==> FindEntry(entries, code).Some?
    requires k < |AddLine(entries, l)| && IsTaxColumn(c)
    ensures var e := AddLine(entries, l)[k];
            e.Amount(c) == CodeSum(ls, c, e.tipoImpuesto) + CodePart(c, e.tipoImpuesto, l) && IsCents(e.Amount(c))
  {
    if l.code.Some? {
      var found := FindEntry(entries, l.code.value);
      if found == Some(k) {
        AddAmounts(entries[k], l.tax, c);
      } else if k == |entries| {
        var e := TaxEntry(l.code.value, l.tasa, 0.0, 0.0, 0.0);
        assert IsCents(0.0);
        AddAmounts(e, l.tax, c);
        NoCodeNoSum(ls, c, l.code.value);
      } else if found.Some? {
        assert entries[k].tipoImpuesto != l.code.value;
      }
    }
  }

  lemma AddLineCodes(entries: seq<TaxEntry>, l: Line)
    requires OneEntryPerCode(entries)
    ensures OneEntryPerCode(AddLine(entries, l))
    ensures forall code: nat :: FindEntry(AddLine(entries, l), code).Some? <==> FindEntry(entries, code).Some? || l.code == Some(code)
  {
    forall code: nat
      ensures FindEntry(AddLine(entries, l), code).Some? <==> FindEntry(entries, code).Some? || l.code == Some(code)
    {
      AddLineCode(entries, l, code);
    }
  }

  lemma AddLineCode(entries: seq<TaxEntry>, l: Line, code: nat)
    ensures FindEntry(AddLine(entries, l), code).Some? <==> FindEntry(entries, code).Some? || l.code == Some(code)
  {
    var after := AddLine(entries, l);
    if FindEntry(entries, code).Some? {
      var k := FindEntry(entries, code).value;
      assert after[k].tipoImpuesto == code;
    } else if l.code == Some(code) {
      assert after[|entries|].tipoImpuesto == code;
    }
  }

  lemma AddLineKeepsCents(entries: seq<TaxEntry>, l: Line)
    requires LineOk(l) && EntriesInCents(entries)
    ensures EntriesInCents(AddLine(entries, l))
  {
    assert IsCents(0.0);
    var after := AddLine(entries, l);
    forall k, c: Column | 0 <= k < |after|
      ensures IsCents(after[k].Amount(c))
    {
      if l.code.Some? && IsTaxColumn(c) {
        if FindEntry(entries, l.code.value) == Some(k) {
          AddAmounts(entries[k], l.tax, c);
        } else if k == |entries| {
          AddAmounts(TaxEntry(l.code.value, l.tasa, 0.0, 0.0, 0.0), l.tax, c);
        }
      }
    }
  }

  lemma CodesOfLines(ls: seq<Line>)
    requires ls != []
    ensures forall code: nat :: HasCode(ls, code) <==> HasCode(ls[..|ls| - 1], code) || ls[|ls| - 1].code == Some(code)
  {
    var before, l := ls[..|ls| - 1], ls[|ls| - 1];
    forall code: nat
      ensures HasCode(ls, code) <==> HasCode(before, code) || l.code == Some(code)
    {
      if HasCode(before, code) {
        var i :| 0 <= i < |before| && before[i].code == Some(code);
        assert ls[i].code == Some(code);
      }
      if l.code == Some(code) {
        assert ls[|ls| - 1].code == Some(code);
      }
      if HasCode(ls, code) && l.code != Some(code) {
        var i :| 0 <= i < |ls| && ls[i].code == Some(code);
        assert before[i].code == Some(code);
      }
    }
  }

  /** The table is a regrouping: one entry per code that occurs, each holding its
      code's sums, the columns adding up to the totals despite the roundings. */
  lemma {:induction false} TableIsRegrouping(ls: seq<Line>)
    requires forall l :: l in ls ==> LineOk(l)
    ensures OneEntryPerCode(TaxTable(ls)) && EntriesInCents(TaxTable(ls))
    ensures EntriesAreSums(TaxTable(ls), ls)
    ensures forall code: nat :: HasCode(ls, code) <==> FindEntry(TaxTable(ls), code).Some?
    ensures forall c :: IsTaxColumn(c) ==> Sum(TaxTable(ls), (e: TaxEntry) => e.Amount(c)) == ColumnSum(ls, c)
  {
    hide IsCents, AddLine;
    if ls != [] {
      var last := |ls| - 1;
      var before, l := ls[..last], ls[last];
      var entries := TaxTable(before);
      assert l in ls;
      TableIsRegrouping(before);
      AddLineCodes(entries, l);
      AddLineKeepsCents(entries, l);
      forall c | IsTaxColumn(c)
        ensures Sum(TaxTable(ls), (e: TaxEntry) => e.Amount(c)) == ColumnSum(ls, c)
      {
        AddLineColumn(entries, l, c);
      }
      forall k, c | 0 <= k < |TaxTable(ls)| && IsTaxColumn(c)
        ensures TaxTable(ls)[k].Amount(c) == CodeSum(ls, c, TaxTable(ls)[k].tipoImpuesto)
      {
        AddLineEntry(entries, before, l, k, c);
      }
      CodesOfLines(ls);
    }
  }

  /** The first line of its code gives an entry its rate. */
  ghost predicate RateOfFirst(ls: seq<Line>, e: TaxEntry) {
    exists i :: 0 <= i < |ls| && ls[i].code == Some(e.tipoImpuesto) && ls[i].tasa == e.tasa
      && forall j :: 0 <= j < i ==> ls[j].code != Some(e.tipoImpuesto)
  }

  lemma LongerKeepsFirst(ls: seq<Line>, l: Line, e: TaxEntry, f: TaxEntry)
    requires RateOfFirst(ls, e) && f.tipoImpuesto == e.tipoImpuesto && f.tasa == e.tasa
    ensures RateOfFirst(ls + [l], f)
  {
    var i :| 0 <= i < |ls| && ls[i].code == Some(e.tipoImpuesto) && ls[i].tasa == e.tasa
             && forall j :: 0 <= j < i ==> ls[j].code != Some(e.tipoImpuesto);
    assert (ls + [l])[i] == ls[i] && forall j :: 0 <= j < i ==> (ls + [l])[j] == ls[j];
  }

  lemma {:induction false} EntriesKeepFirstRate(ls: seq<Line>)
    requires forall l :: l in ls ==> LineOk(l)
    ensures forall k :: 0 <= k < |TaxTable(ls)| ==> RateOfFirst(ls, TaxTable(ls)[k])
  {
    if ls != [] {
      var before, l := ls[..|ls| - 1], ls[|ls| - 1];
      var entries, after := TaxTable(before), TaxTable(ls);
      assert ls == before + [l];
      EntriesKeepFirstRate(before);
      TableIsRegrouping(before);
      forall k | 0 <= k < |after|
        ensures RateOfFirst(ls, after[k])
      {
        if k < |entries| {
          LongerKeepsFirst(before, l, entries[k], after[k]);
        } else {
          NewEntryIsFirst(before, l);
        }
      }
    }
  }

  lemma NewEntryIsFirst(before: seq<Line>, l: Line)
    requires forall code: nat :: HasCode(before, code) <==> FindEntry(TaxTable(before), code).Some?
    requires l.code.Some? && FindEntry(TaxTable(before), l.code.value).None?
    ensures var after := AddLine(TaxTable(before), l); |after| == |TaxTable(before)| + 1 && RateOfFirst(before + [l], after[|after| - 1])
  {
    assert (before + [l])[|before|] == l;
    assert !HasCode(before, l.code.value);
    assert forall j :: 0 <= j < |before| ==> (before + [l])[j] == before[j];
  }

  function CodeOfItem(c: Column, code: nat, montoGravado: int, it: Item): real {
    if ItemOk(it) then CodePart(c, code, Assess(it, montoGravado)) else 0.0
  }

  lemma {:induction false} CodeOverItems(items: seq<Item>, c: Column, code: nat, montoGravado: int)
    requires forall it :: it in items ==> ItemOk(it)
    ensures CodeSum(Lines(items, montoGravado), c, code) == Sum(items, it => CodeOfItem(c, code, montoGravado, it))
  {
    if items != [] {
      var last := |items| - 1;
      assert Lines(items, montoGravado)[..last] == Lines(items[..last], montoGravado);
      CodeOverItems(items[..last], c, code, montoGravado);
      assert items[last] in items;
    }
  }

  lemma CodeFromItems(items: seq<Item>, others: seq<Item>, code: nat, montoGravado: int)
    requires multiset(items) == multiset(others)
    requires forall it :: it in items ==> ItemOk(it)
    requires forall it :: it in others ==> ItemOk(it)
    ensures HasCode(Lines(items, montoGravado), code) ==> HasCode(Lines(others, montoGravado), code)
  {
    var ls := Lines(items, montoGravado);
    if HasCode(ls, code) {
      var i :| 0 <= i < |ls| && ls[i].code == Some(code);
      assert items[i] in multiset(others);
      var j :| 0 <= j < |others| && others[j] == items[i];
      assert Lines(others, montoGravado)[j].code == Some(code);
    }
  }

  ghost predicate SameEntries(a: seq<TaxEntry>, b: seq<TaxEntry>, code: nat) {
    match (FindEntry(a, code), FindEntry(b, code))
    case (None, None) => true
    case (Some(j), Some(k)) => forall c :: IsTaxColumn(c) ==> a[j].Amount(c) == b[k].Amount(c)
    case _ => false
  }

  lemma LinesOk(items: seq<Item>, montoGravado: int)
    requires forall it :: it in items ==> ItemOk(it)
    ensures forall l :: l in Lines(items, montoGravado) ==> LineOk(l)
  {
    var ls := Lines(items, montoGravado);
    forall l | l in ls ensures LineOk(l) {
      var i :| 0 <= i < |ls| && ls[i] == l;
      AssessedOk(items[i], montoGravado);
    }
  }

  /** The table has the same codes with the same amounts in whatever order the lines
      come; only the order of its entries follows the lines. */
  lemma {:induction false} TableIgnoresOrder(items: seq<Item>, others: seq<Item>, montoGravado: int, code: nat)
    requires multiset(items) == multiset(others)
    requires forall it :: it in items ==> ItemOk(it)
    requires forall it :: it in others ==> ItemOk(it)
    ensures SameEntries(TaxTable(Lines(items, montoGravado)), TaxTable(Lines(others, montoGravado)), code)
  {
    hide TaxTable, HasCode, CodeSum;
    var ls, ms := Lines(items, montoGravado), Lines(others, montoGravado);
    LinesOk(items, montoGravado);
    LinesOk(others, montoGravado);
    TableIsRegrouping(ls);
    TableIsRegrouping(ms);
    CodeFromItems(items, others, code, montoGravado);
    CodeFromItems(others, items, code, montoGravado);
    forall c | IsTaxColumn(c)
      ensures CodeSum(ls, c, code) == CodeSum(ms, c, code)
    {
      CodeOverItems(items, c, code, montoGravado);
      CodeOverItems(others, c, code, montoGravado);
      SumPermutes(items, others, it => CodeOfItem(c, code, montoGravado, it));
    }
  }

  function MontoImpuestoAdicional(t: InvoiceTotals): real {
    Round2(t.totalIsc + t.totalOtrosImpuestos)
  }

  lemma {:induction false} EntryTotals(entries: seq<TaxEntry>)
    ensures Sum(entries, (e: TaxEntry) => e.especifico + e.advalorem + e.otros)
            == Sum(entries, (e: TaxEntry) => e.Amount(Especifico)) + Sum(entries, (e: TaxEntry) => e.Amount(Advalorem))
               + Sum(entries, (e: TaxEntry) => e.Amount(Otros))
  {
    if entries != [] {
      EntryTotals(entries[..|entries| - 1]);
    }
  }

  /** The declared MontoImpuestoAdicional is the sum of the whole table. */
  lemma {:induction false} AdditionalTaxIsTableSum(ls: seq<Line>)
    requires forall l :: l in ls ==> LineOk(l)
    ensures MontoImpuestoAdicional(TotalsOf(ls)) == Sum(TotalsOf(ls).additionalTaxEntries, (e: TaxEntry) => e.especifico + e.advalorem + e.otros)
  {
    TableIsRegrouping(ls);
    EntryTotals(TaxTable(ls));
    ColumnIsCents(ls, Especifico);
    ColumnIsCents(ls, Advalorem);
    ColumnIsCents(ls, Otros);
    CentsOfNothing();
    FiveCents(ColumnSum(ls, Especifico), ColumnSum(ls, Advalorem), ColumnSum(ls, Otros), 0.0, 0.0);
  }

  // ----- balance check -----

  datatype Balance = Balanced | Warning(difference: real) | Unbalanced(difference: real)

  /** Tolerance: one unit a line. */
  function Judge(diff: real, lines: nat): Balance {
    if diff > lines as real then Unbalanced(diff) else if diff > 0.0 then Warning(diff) else Balanced
  }

  function Cuadratura(items: seq<Item>, t: InvoiceTotals): Balance {
    Judge(Abs(Round2(Sum(items, it => LineSubtotal(it))) - t.subtotalBeforeTax), |items|)
  }

  /** The balance check: sum of the lines against the subtotal. */
  method ValidateCuadratura(items: seq<Item>, t: InvoiceTotals) returns (b: Balance)
    ensures b == Cuadratura(items, t)
  {
    var sumLineSubtotals := 0.0;
    var i := 0;
    while i < |items|
      invariant 0 <= i <= |items|
      invariant sumLineSubtotals == Sum(items[..i], it => LineSubtotal(it))
    {
      SumSnoc(items, i, it => LineSubtotal(it));
      sumLineSubtotals := sumLineSubtotals + LineSubtotal(items[i]);
      i := i + 1;
    }
    assert items[..i] == items;
    sumLineSubtotals := Round2(sumLineSubtotals);
    var diff := Abs(sumLineSubtotals - t.subtotalBeforeTax);
    if diff > |items| as real {
      return Unbalanced(diff);
    }
    if diff > 0.0 {
      return Warning(diff);
    }
    return Balanced;
  }

  lemma {:induction false} SubtotalsOfItems(items: seq<Item>)
    ensures Sum(items, it => LineSubtotal(it)) == Sum(PersistLines(items), (r: InvoiceLine) => r.subtotal)
    ensures IsCents(Sum(items, it => LineSubtotal(it)))
  {
    if items != [] {
      var last := |items| - 1;
      assert PersistLines(items)[..last] == PersistLines(items[..last]);
      SubtotalsOfItems(items[..last]);
      CentsClosed(Sum(items[..last], it => LineSubtotal(it)), LineSubtotal(items[last]));
    }
  }

  /** What the lines that are not invoiceable add up to. */
  function NotInvoiceable(items: seq<Item>): real {
    Sum(items, it => if Indicador(it) == 0 then LineSubtotal(it) else 0.0)
  }

  lemma {:induction false} NotInvoiceableIsColumn(items: seq<Item>, montoGravado: int)
    requires forall it :: it in items ==> ItemOk(it)
    ensures ColumnSum(Lines(items, montoGravado), NoFacturable) == NotInvoiceable(items)
  {
    if items != [] {
      var last := |items| - 1;
      assert Lines(items, montoGravado)[..last] == Lines(items[..last], montoGravado);
      assert items[last] in items;
      NotInvoiceableIsColumn(items[..last], montoGravado);
    }
  }

  /** On totals computed from the same lines the check looks at nothing but the
      amount that is not invoiceable: the document is rejected exactly when that
      amount exceeds one unit a line, and passes without warning exactly at 0. */
  lemma {:induction false} CuadraturaVerdict(items: seq<Item>, montoGravado: int)
    requires forall it :: it in items ==> ItemOk(it) && 0 <= Indicador(it) <= 4
    ensures var verdict, amount := Cuadratura(items, TotalsOf(Lines(items, montoGravado))), Abs(NotInvoiceable(items));
            && (verdict.Unbalanced? <==> amount > |items| as real)
            && (verdict.Balanced? <==> NotInvoiceable(items) == 0.0)
            && (!verdict.Balanced? ==> verdict.difference == amount)
    ensures (forall it :: it in items ==> Indicador(it) != 0) ==> Cuadratura(items, TotalsOf(Lines(items, montoGravado))).Balanced?
  {
    hide TotalsOf, NotInvoiceable;
    CuadraturaExactly(items, montoGravado);
    NotInvoiceableColumn(items, montoGravado);
  }

  lemma NotInvoiceableColumn(items: seq<Item>, montoGravado: int)
    requires forall it :: it in items ==> ItemOk(it)
    ensures TotalsOf(Lines(items, montoGravado)).montoNoFacturable == NotInvoiceable(items)
  {
    NotInvoiceableIsColumn(items, montoGravado);
  }

  /** The difference that the check computes. */
  lemma {:induction false} CuadraturaExactly(items: seq<Item>, montoGravado: int)
    requires forall it :: it in items ==> ItemOk(it) && 0 <= Indicador(it) <= 4
    ensures var t := TotalsOf(Lines(items, montoGravado));
            Abs(Round2(Sum(items, it => LineSubtotal(it))) - t.subtotalBeforeTax) == Abs(t.montoNoFacturable)
    ensures (forall it :: it in items ==> Indicador(it) != 0) ==> TotalsOf(Lines(items, montoGravado)).montoNoFacturable == 0.0
  {
    hide TotalsOf, IsCents;
    PersistedLinesAgree(items, montoGravado);
    SubtotalsOfItems(items);
    if forall it :: it in items ==> Indicador(it) != 0 {
      NoUninvoiceable(items, montoGravado);
    }
  }

  lemma {:induction false} NoUninvoiceable(items: seq<Item>, montoGravado: int)
    requires forall it :: it in items ==> ItemOk(it) && Indicador(it) != 0
    ensures TotalsOf(Lines(items, montoGravado)).montoNoFacturable == 0.0
  {
    if items != [] {
      var last := |items| - 1;
      assert Lines(items, montoGravado)[..last] == Lines(items[..last], montoGravado);
      assert items[last] in items;
      NoUninvoiceable(items[..last], montoGravado);
    }
  }
}
