/** The annulment document: ranges grouped by type, with their counts. */
module Anecf {
  import opened EcfTypes
  import opened Encf
  import opened Sequences

  datatype Anulacion = Anulacion(noLinea: nat, tipoEcf: EcfType, ranges: seq<NumRange>, cantidad: int)

  datatype AnecfDocument = AnecfDocument(cantidad: int, lines: seq<Anulacion>)

  function TypeCode(t: EcfType): nat {
    match t
    case E31 => 31
    case E32 => 32
    case E33 => 33
    case E34 => 34
    case E41 => 41
    case E43 => 43
    case E44 => 44
    case E45 => 45
    case E46 => 46
    case E47 => 47
  }

  const TYPES_BY_CODE: seq<EcfType> := [E31, E32, E33, E34, E41, E43, E44, E45, E46, E47]

  function RangeCount(r: NumRange): int {
    r.last - r.first + 1
  }

  function CountAll(rs: seq<NumRange>): int {
    if rs == [] then 0 else CountAll(rs[..|rs| - 1]) + RangeCount(rs[|rs| - 1])
  }

  function OfType(rs: seq<NumRange>, t: EcfType): seq<NumRange> {
    if rs == [] then []
    else
      var before := OfType(rs[..|rs| - 1], t);
      if rs[|rs| - 1].ecfType == t then before + [rs[|rs| - 1]] else before
  }

  /** Ranges of the request gathered by type, in the order they came. */
  ghost predicate Grouped(byType: map<EcfType, seq<NumRange>>, rs: seq<NumRange>) {
    && (forall t: EcfType :: t in byType <==> OfType(rs, t) != [])
    && (forall t :: t in byType ==> byType[t] == OfType(rs, t))
  }

  method GroupByType(rs: seq<NumRange>) returns (byType: map<EcfType, seq<NumRange>>)
    ensures Grouped(byType, rs)
  {
    byType := map[];
    var i := 0;
    while i < |rs|
      invariant 0 <= i <= |rs|
      invariant Grouped(byType, rs[..i])
    {
      assert rs[..i + 1][..i] == rs[..i];
      var t := rs[i].ecfType;
      var ranges := if t in byType then byType[t] else [];
      byType := byType[t := ranges + [rs[i]]];
      i := i + 1;
    }
    assert rs[..i] == rs;
  }

  function CountOfLines(lines: seq<Anulacion>): int {
    if lines == [] then 0 else CountOfLines(lines[..|lines| - 1]) + lines[|lines| - 1].cantidad
  }

  /** Groups of the first `k` types, in code order. */
  function GroupsUpTo(rs: seq<NumRange>, k: nat): int
    requires k <= |TYPES_BY_CODE|
  {
    if k == 0 then 0 else GroupsUpTo(rs, k - 1) + CountAll(OfType(rs, TYPES_BY_CODE[k - 1]))
  }

  ghost predicate LineOk(l: Anulacion, noLinea: nat, rs: seq<NumRange>) {
    && l.noLinea == noLinea
    && l.ranges == OfType(rs, l.tipoEcf) != []
    && l.cantidad == CountAll(l.ranges)
  }

  predicate InCodeOrder(lines: seq<Anulacion>) {
    forall i, j :: 0 <= i < j < |lines| ==> TypeCode(lines[i].tipoEcf) < TypeCode(lines[j].tipoEcf)
  }

  predicate HasLine(lines: seq<Anulacion>, t: EcfType) {
    exists j :: 0 <= j < |lines| && lines[j].tipoEcf == t
  }

  /** One line per type that occurs below code `bound`, in code order, numbered
      from 1, each with its type's ranges and count. */
  ghost predicate LinesOk(lines: seq<Anulacion>, rs: seq<NumRange>, bound: nat) {
    && (forall j :: 0 <= j < |lines| ==> LineOk(lines[j], j + 1, rs) && TypeCode(lines[j].tipoEcf) < bound)
    && InCodeOrder(lines)
    && (forall t: EcfType :: TypeCode(t) < bound && OfType(rs, t) != [] ==> HasLine(lines, t))
  }

  lemma AllLines(lines: seq<Anulacion>, rs: seq<NumRange>)
    requires LinesOk(lines, rs, BoundAt(|TYPES_BY_CODE|))
    ensures forall k :: 0 <= k < |lines| ==> LineOk(lines[k], k + 1, rs)
    ensures InCodeOrder(lines)
    ensures forall t :: OfType(rs, t) != [] <==> HasLine(lines, t)
  {
    forall t | HasLine(lines, t)
      ensures OfType(rs, t) != []
    {
      var j :| 0 <= j < |lines| && lines[j].tipoEcf == t;
      assert LineOk(lines[j], j + 1, rs);
    }
  }

  lemma NoLines(rs: seq<NumRange>)
    ensures LinesOk([], rs, BoundAt(0)) && CountOfLines([]) == GroupsUpTo(rs, 0) == 0
  {}

  lemma AppendLine(lines: seq<Anulacion>, l: Anulacion, rs: seq<NumRange>, bound: nat)
    requires LinesOk(lines, rs, bound)
    requires LineOk(l, |lines| + 1, rs) && bound <= TypeCode(l.tipoEcf)
    requires forall t: EcfType :: bound <= TypeCode(t) < TypeCode(l.tipoEcf) ==> OfType(rs, t) == []
    ensures LinesOk(lines + [l], rs, TypeCode(l.tipoEcf) + 1)
    ensures CountOfLines(lines + [l]) == CountOfLines(lines) + l.cantidad
  {
    var longer := lines + [l];
    assert longer[..|lines|] == lines;
    forall t: EcfType | TypeCode(t) < TypeCode(l.tipoEcf) + 1 && OfType(rs, t) != []
      ensures HasLine(longer, t)
    {
      if TypeCode(t) == TypeCode(l.tipoEcf) {
        assert longer[|lines|].tipoEcf == t;
      } else {
        assert HasLine(lines, t);
        var j :| 0 <= j < |lines| && lines[j].tipoEcf == t;
        assert longer[j].tipoEcf == t;
      }
    }
  }

  /** Codes from `BoundAt(k)` on are those of the types from position `k` on. */
  function BoundAt(k: nat): nat
    requires k <= |TYPES_BY_CODE|
  {
    if k == 0 then 0 else TypeCode(TYPES_BY_CODE[k - 1]) + 1
  }

  /** The lines name every type of the request once, in code order, with its
      ranges and count; the header counts them all. */
  method BuildAnecf(rs: seq<NumRange>) returns (d: AnecfDocument)
    ensures forall k :: 0 <= k < |d.lines| ==> LineOk(d.lines[k], k + 1, rs)
    ensures InCodeOrder(d.lines)
    ensures forall t :: OfType(rs, t) != [] <==> HasLine(d.lines, t)
    ensures d.cantidad == CountAll(rs) == CountOfLines(d.lines)
  {
    hide LinesOk, CountOfLines, InCodeOrder, HasLine, BoundAt;
    var byType := GroupByType(rs);
    var lines: seq<Anulacion> := [];
    var total := 0;
    NoLines(rs);
    var k := 0;
    while k < |TYPES_BY_CODE|
      invariant 0 <= k <= |TYPES_BY_CODE|
      invariant LinesOk(lines, rs, BoundAt(k))
      invariant total == CountOfLines(lines) == GroupsUpTo(rs, k)
    {
      var t := TYPES_BY_CODE[k];
      NoTypeBetween(k);
      NextBound(k);
      if t in byType {
        var line := Anulacion(|lines| + 1, t, byType[t], CountAll(byType[t]));
        AppendLine(lines, line, rs, BoundAt(k));
        lines := lines + [line];
        total := total + line.cantidad;
      } else {
        SkipType(lines, rs, k);
      }
      k := k + 1;
    }
    AllLines(lines, rs);
    CountByType(rs);
    return AnecfDocument(total, lines);
  }

  lemma NextBound(k: nat)
    requires k < |TYPES_BY_CODE|
    ensures BoundAt(k + 1) == TypeCode(TYPES_BY_CODE[k]) + 1
  {}

  lemma NoTypeBetween(k: nat)
    requires k < |TYPES_BY_CODE|
    ensures BoundAt(k) <= TypeCode(TYPES_BY_CODE[k])
    ensures forall t: EcfType :: BoundAt(k) <= TypeCode(t) < TypeCode(TYPES_BY_CODE[k]) ==> false
  {
    if k > 0 {
      CodesIncrease(k);
    }
    forall t: EcfType | BoundAt(k) <= TypeCode(t) < TypeCode(TYPES_BY_CODE[k])
      ensures false
    {
      var n := PositionOf(t);
      if n < k {
        if n < k - 1 { CodesIncrease(k - 1); }
      } else if k < n {
        CodesIncrease(n);
      }
    }
  }

  lemma SkipType(lines: seq<Anulacion>, rs: seq<NumRange>, k: nat)
    requires k < |TYPES_BY_CODE| && LinesOk(lines, rs, BoundAt(k)) && OfType(rs, TYPES_BY_CODE[k]) == []
    ensures LinesOk(lines, rs, BoundAt(k + 1))
  {
    NoTypeBetween(k);
    forall t: EcfType | TypeCode(t) == TypeCode(TYPES_BY_CODE[k])
      ensures t == TYPES_BY_CODE[k]
    {}
  }

  function PositionOf(t: EcfType): (n: nat)
    ensures n < |TYPES_BY_CODE| && TYPES_BY_CODE[n] == t
  {
    match t
    case E31 => 0
    case E32 => 1
    case E33 => 2
    case E34 => 3
    case E41 => 4
    case E43 => 5
    case E44 => 6
    case E45 => 7
    case E46 => 8
    case E47 => 9
  }

  lemma CodesIncrease(k: nat)
    requires k < |TYPES_BY_CODE|
    ensures forall n :: 0 <= n < k ==> TypeCode(TYPES_BY_CODE[n]) < TypeCode(TYPES_BY_CODE[k])
  {}

  lemma {:induction false} GroupsAppend(rs: seq<NumRange>, k: nat)
    requires rs != [] && k <= |TYPES_BY_CODE|
    ensures var r := rs[|rs| - 1];
            GroupsUpTo(rs, k) == GroupsUpTo(rs[..|rs| - 1], k) + if PositionOf(r.ecfType) < k then RangeCount(r) else 0
  {
    hide OfType, CountAll, PositionOf, RangeCount;
    if k > 0 {
      GroupsAppend(rs, k - 1);
      OfTypeAppend(rs, TYPES_BY_CODE[k - 1]);
      PositionIsInverse(rs[|rs| - 1].ecfType, k - 1);
    }
  }

  lemma OfTypeAppend(rs: seq<NumRange>, t: EcfType)
    requires rs != []
    ensures var r := rs[|rs| - 1];
            CountAll(OfType(rs, t)) == CountAll(OfType(rs[..|rs| - 1], t)) + if r.ecfType == t then RangeCount(r) else 0
  {
    var before := OfType(rs[..|rs| - 1], t);
    assert (before + [rs[|rs| - 1]])[..|before|] == before;
  }

  lemma PositionIsInverse(t: EcfType, k: nat)
    requires k < |TYPES_BY_CODE|
    ensures PositionOf(t) == k <==> t == TYPES_BY_CODE[k]
  {
    if PositionOf(t) != k {
      DistinctTypes(PositionOf(t), k);
    }
  }

  lemma DistinctTypes(i: nat, j: nat)
    requires i < |TYPES_BY_CODE| && j < |TYPES_BY_CODE| && i != j
    ensures TYPES_BY_CODE[i] != TYPES_BY_CODE[j]
  {
    if i < j {
      CodesIncrease(j);
    } else {
      CodesIncrease(i);
    }
  }

  /** Grouping loses and repeats nothing. */
  lemma {:induction false} CountByType(rs: seq<NumRange>)
    ensures GroupsUpTo(rs, |TYPES_BY_CODE|) == CountAll(rs)
  {
    if rs == [] {
      NoGroups(|TYPES_BY_CODE|);
    } else {
      CountByType(rs[..|rs| - 1]);
      GroupsAppend(rs, |TYPES_BY_CODE|);
    }
  }

  lemma {:induction false} NoGroups(k: nat)
    requires k <= |TYPES_BY_CODE|
    ensures GroupsUpTo([], k) == 0
  {
    if k > 0 {
      NoGroups(k - 1);
    }
  }

  // ----- what the declared count counts -----

  function NumbersOf(r: NumRange): set<(EcfType, int)> {
    set n | r.first <= n <= r.last :: (r.ecfType, n)
  }

  function AllNumbers(rs: seq<NumRange>): set<(EcfType, int)> {
    if rs == [] then {} else AllNumbers(rs[..|rs| - 1]) + NumbersOf(rs[|rs| - 1])
  }

  lemma {:induction false} IntervalSize(t: EcfType, first: int, last: int)
    requires first <= last + 1
    ensures |set n | first <= n <= last :: (t, n)| == last - first + 1
    decreases last - first + 1
  {
    var s := set n | first <= n <= last :: (t, n);
    if first <= last {
      var smaller := set n | first <= n <= last - 1 :: (t, n);
      IntervalSize(t, first, last - 1);
      assert s == smaller + {(t, last)};
    } else {
      assert s == {};
    }
  }

  lemma RangeSize(r: NumRange)
    requires r.first <= r.last
    ensures |NumbersOf(r)| == RangeCount(r)
  {
    IntervalSize(r.ecfType, r.first, r.last);
  }

  ghost predicate NoOverlap(rs: seq<NumRange>) {
    rs != [] ==> NoOverlap(rs[..|rs| - 1]) && AllNumbers(rs[..|rs| - 1]) !! NumbersOf(rs[|rs| - 1])
  }

  /** The declared number of annulled eNCFs is the number of distinct ones exactly
      when no two ranges of the request overlap; the planner accepts overlaps
      below the counter, and then the document counts those numbers twice. */
  lemma {:induction false} CountIsDistinctIff(rs: seq<NumRange>)
    requires forall r :: r in rs ==> r.first <= r.last
    ensures |AllNumbers(rs)| <= CountAll(rs)
    ensures |AllNumbers(rs)| == CountAll(rs) <==> NoOverlap(rs)
  {
    if rs != [] {
      var before, r := rs[..|rs| - 1], rs[|rs| - 1];
      CountIsDistinctIff(before);
      RangeSize(r);
      var a, b := AllNumbers(before), NumbersOf(r);
      UnionSize(a, b);
    }
  }

  lemma UnionSize<T>(a: set<T>, b: set<T>)
    ensures |a + b| + |a * b| == |a| + |b|
    ensures |a * b| == 0 <==> a !! b
  {
    assert a + b == (a - b) + b;
    assert a == (a - b) + (a * b);
    assert a * b == {} <==> a !! b;
  }

  /** Two copies of one consumed number without an invoice: the planner accepts
      them, and the document declares two annulled eNCFs. */
  lemma AcceptedPlanCanCountTwice(row: Row)
    requires row.isActive && row.startNumber <= 1 <= row.currentNumber && 1 <= row.endNumber
    ensures var one := FormatEncf(row.ecfType, 1);
            var plan := Plan([row], [], [RangeText(one, one)] + [RangeText(one, one)]);
            plan.Ok? && CountAll(plan.value.ranges) == 2 && |AllNumbers(plan.value.ranges)| == 1
  {
    var t := row.ecfType;
    TenDigits();
    ParseOfFormat(t, 1);
    var text := RangeText(FormatEncf(t, 1), FormatEncf(t, 1));
    var r := NumRange(t, 1, 1);
    assert [row][..0] == [] && FindActive([], t) == None;
    assert [text][..0] == [] && PlanRanges([row], [], []) == Ok(Draft([], map[]));
    assert PlanRanges([row], [], [text]).value.ranges == [r];
    assert ([text] + [text])[..1] == [text];
    SameRangeTwice(t, 1);
  }

  lemma SameRangeTwice(t: EcfType, n: nat)
    ensures var r := NumRange(t, n, n); CountAll([r] + [r]) == 2 && |AllNumbers([r] + [r])| == 1
  {
    var r := NumRange(t, n, n);
    assert ([r] + [r])[..1] == [r] && [r][..0] == [];
    assert CountAll([]) == 0 && CountAll([r]) == 1 && CountAll([r] + [r]) == 2;
    assert AllNumbers([r]) == {(t, n)} && AllNumbers([r] + [r]) == {(t, n)};
  }
}
