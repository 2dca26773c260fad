/** The eNCF codec: "E", a two-digit type code and a zero-padded ten-digit
    number. The allocator compares these strings where it means numbers. */
module Encf {
  import opened EcfTypes
  import opened Digits

  const SEQUENCE_DIGITS: nat := 10

  function Pow10(w: nat): (p: nat)
    ensures p > 0
  {
    if w == 0 then 1 else 10 * Pow10(w - 1)
  }

  /** Decimal text without leading zeros, as `String(n)` writes it. */
  function Decimal(n: nat): string {
    if n < 10 then [DigitChar(n)] else Decimal(n / 10) + [DigitChar(n % 10)]
  }

  function Zeros(k: nat): string {
    seq(k, _ => '0')
  }

  /** `s.padStart(w, '0')`: longer texts are left alone. */
  function PadStart(s: string, w: nat): string {
    if |s| >= w then s else Zeros(w - |s|) + s
  }

  /** Exactly `w` decimal digits of `n`, leading zeros included: the reference
      form that PadStart over Decimal is compared with. */
  function FixedDigits(w: nat, n: nat): (s: string)
    ensures |s| == w && AllDigits(s)
  {
    if w == 0 then "" else FixedDigits(w - 1, n / 10) + [DigitChar(n % 10)]
  }

  /** Text order as the database compares digits and upper-case letters. */
  predicate TextLeq(a: string, b: string) {
    a == [] || (b != [] && (a[0] < b[0] || (a[0] == b[0] && TextLeq(a[1..], b[1..]))))
  }

  lemma TenDigits()
    ensures Pow10(10) == 10000000000
  {
    assert Pow10(2) == 100;
    assert Pow10(4) == 10000;
    assert Pow10(6) == 1000000;
    assert Pow10(8) == 100000000;
  }

  // ----- fixed-width decimals -----

  lemma {:induction false} PaddingIsFixedWidth(w: nat, n: nat)
    requires w > 0 && n < Pow10(w)
    ensures PadStart(Decimal(n), w) == FixedDigits(w, n)
  {
    if n < 10 {
      FixedZeros(w - 1);
      assert n / 10 == 0;
    } else {
      assert Pow10(w) == 10 * Pow10(w - 1);
      assert w != 1;
      PaddingIsFixedWidth(w - 1, n / 10);
      var high := Decimal(n / 10);
      assert |high| <= w - 1 by {
        DecimalLength(w - 1, n / 10);
      }
      assert Zeros(w - 1 - |high|) + high + [DigitChar(n % 10)] == Zeros(w - 1 - |high|) + (high + [DigitChar(n % 10)]);
    }
  }

  lemma {:induction false} FixedZeros(w: nat)
    ensures FixedDigits(w, 0) == Zeros(w)
  {
    if w > 0 {
      FixedZeros(w - 1);
    }
  }

  lemma {:induction false} DecimalLength(w: nat, n: nat)
    requires w > 0 && n < Pow10(w)
    ensures 1 <= |Decimal(n)| <= w
  {
    assert Pow10(w) == 10 * Pow10(w - 1);
    if n >= 10 {
      assert w != 1;
      DecimalLength(w - 1, n / 10);
    }
  }

  lemma {:induction false} ParseOfFixed(w: nat, n: nat)
    requires n < Pow10(w)
    ensures ParseDigits(FixedDigits(w, n)) == n
  {
    if w > 0 {
      ParseOfFixed(w - 1, n / 10);
      assert FixedDigits(w, n)[..w - 1] == FixedDigits(w - 1, n / 10);
    }
  }

  lemma {:induction false} FixedOfParse(s: string)
    requires AllDigits(s)
    ensures ParseDigits(s) < Pow10(|s|)
    ensures FixedDigits(|s|, ParseDigits(s)) == s
  {
    if s != [] {
      var high := s[..|s| - 1];
      FixedOfParse(high);
      assert s == high + [s[|s| - 1]];
    }
  }

  // ----- text order -----

  lemma {:induction false} TextLeqSnoc(x: string, y: string, c: char, d: char)
    requires |x| == |y|
    ensures TextLeq(x + [c], y + [d]) <==> if x == y then c <= d else TextLeq(x, y)
  {
    if x == [] {
      assert TextLeq([c][1..], [d][1..]);
    } else {
      assert (x + [c])[1..] == x[1..] + [c] && (y + [d])[1..] == y[1..] + [d];
      TextLeqSnoc(x[1..], y[1..], c, d);
      assert x[0] == y[0] ==> (x == y <==> x[1..] == y[1..]) by {
        assert x == [x[0]] + x[1..] && y == [y[0]] + y[1..];
      }
    }
  }

  lemma {:induction false} TextLeqPrefix(p: string, x: string, q: string, y: string)
    requires |p| == |q|
    ensures TextLeq(p + x, q + y) <==> if p == q then TextLeq(x, y) else TextLeq(p, q)
  {
    if p == [] {
      assert p + x == x && q + y == y;
    } else {
      assert (p + x)[1..] == p[1..] + x && (q + y)[1..] == q[1..] + y;
      TextLeqPrefix(p[1..], x, q[1..], y);
      assert p[0] == q[0] ==> (p == q <==> p[1..] == q[1..]) by {
        assert p == [p[0]] + p[1..] && q == [q[0]] + q[1..];
      }
    }
  }

  lemma {:induction false} TextLeqAntisymmetric(a: string, b: string)
    requires TextLeq(a, b) && TextLeq(b, a)
    ensures a == b
  {
    if a != [] {
      TextLeqAntisymmetric(a[1..], b[1..]);
      assert a == [a[0]] + a[1..] && b == [b[0]] + b[1..];
    }
  }

  /** Zero-padded decimals of one width: text order is numeric order. */
  lemma {:induction false} PaddedOrderIsNumericOrder(w: nat, a: nat, b: nat)
    requires a < Pow10(w) && b < Pow10(w)
    ensures TextLeq(FixedDigits(w, a), FixedDigits(w, b)) <==> a <= b
  {
    if w > 0 {
      var x, y := a / 10, b / 10;
      assert x < Pow10(w - 1) && y < Pow10(w - 1);
      PaddedOrderIsNumericOrder(w - 1, x, y);
      FixedInjective(w - 1, x, y);
      var s, t := FixedDigits(w - 1, x), FixedDigits(w - 1, y);
      var c, d := DigitChar(a % 10), DigitChar(b % 10);
      TextLeqSnoc(s, t, c, d);
      assert FixedDigits(w, a) == s + [c] && FixedDigits(w, b) == t + [d];
      assert c <= d <==> a % 10 <= b % 10;
      assert a <= b <==> x < y || (x == y && a % 10 <= b % 10);
    }
  }

  lemma FixedInjective(w: nat, a: nat, b: nat)
    requires a < Pow10(w) && b < Pow10(w)
    ensures FixedDigits(w, a) == FixedDigits(w, b) <==> a == b
  {
    ParseOfFixed(w, a);
    ParseOfFixed(w, b);
  }

  // ----- eNCF -----

  function Prefix(t: EcfType): (p: string)
    ensures |p| == 3
  {
    match t
    case E31 => "E31"
    case E32 => "E32"
    case E33 => "E33"
    case E34 => "E34"
    case E41 => "E41"
    case E43 => "E43"
    case E44 => "E44"
    case E45 => "E45"
    case E46 => "E46"
    case E47 => "E47"
  }

  function TypeOfPrefix(p: string): Option<EcfType> {
    if p == "E31" then Some(E31)
    else if p == "E32" then Some(E32)
    else if p == "E33" then Some(E33)
    else if p == "E34" then Some(E34)
    else if p == "E41" then Some(E41)
    else if p == "E43" then Some(E43)
    else if p == "E44" then Some(E44)
    else if p == "E45" then Some(E45)
    else if p == "E46" then Some(E46)
    else if p == "E47" then Some(E47)
    else None
  }

  function FormatEncf(t: EcfType, n: nat): string {
    Prefix(t) + PadStart(Decimal(n), SEQUENCE_DIGITS)
  }

  predicate IsValidEncf(s: string) {
    && |s| == 13
    && TypeOfPrefix(s[..3]).Some?
    && AllDigits(s[3..])
    && ParseDigits(s[3..]) > 0
  }

  function TypeOf(s: string): EcfType
    requires IsValidEncf(s)
  {
    TypeOfPrefix(s[..3]).value
  }

  function NumberOf(s: string): (n: nat)
    requires IsValidEncf(s)
    ensures n > 0
  {
    ParseDigits(s[3..])
  }

  lemma FormatIsFixed(t: EcfType, n: nat)
    requires n < Pow10(10)
    ensures FormatEncf(t, n) == Prefix(t) + FixedDigits(10, n)
  {
    PaddingIsFixedWidth(10, n);
  }

  lemma TypeOfPrefixInverts(t: EcfType)
    ensures TypeOfPrefix(Prefix(t)) == Some(t)
  {
    match t {
      case E31 | E32 | E33 | E34 => assert Prefix(t)[1] == '3';
      case E41 | E43 | E44 | E45 | E46 | E47 => assert Prefix(t)[1] == '4';
    }
  }

  lemma PrefixInvertsTypeOf(p: string)
    requires TypeOfPrefix(p).Some?
    ensures Prefix(TypeOfPrefix(p).value) == p
  {}

  /** Reading back a formatted eNCF returns its type and number. */
  lemma ParseOfFormat(t: EcfType, n: nat)
    requires 0 < n < Pow10(10)
    ensures IsValidEncf(FormatEncf(t, n))
    ensures TypeOf(FormatEncf(t, n)) == t && NumberOf(FormatEncf(t, n)) == n
  {
    FormatIsFixed(t, n);
    ParseOfFixed(10, n);
    TypeOfPrefixInverts(t);
    var p, d := Prefix(t), FixedDigits(10, n);
    assert (p + d)[..3] == p && (p + d)[3..] == d;
  }

  /** Every text the validator lets through is the formatting of what it parses to. */
  lemma FormatOfParse(e: string)
    requires IsValidEncf(e)
    ensures NumberOf(e) < Pow10(10)
    ensures FormatEncf(TypeOf(e), NumberOf(e)) == e
  {
    FixedOfParse(e[3..]);
    FormatIsFixed(TypeOf(e), NumberOf(e));
    PrefixInvertsTypeOf(e[..3]);
    assert e == e[..3] + e[3..];
  }

  lemma FormatInjective(t: EcfType, n: nat, u: EcfType, m: nat)
    requires 0 < n < Pow10(10) && 0 < m < Pow10(10)
    ensures FormatEncf(t, n) == FormatEncf(u, m) <==> t == u && n == m
  {
    ParseOfFormat(t, n);
    ParseOfFormat(u, m);
  }

  /** The `encf >= from AND encf <= to` query over texts selects exactly the
      eNCFs of that type whose number lies in the interval. */
  lemma RangeQueryIsNumeric(t: EcfType, a: nat, b: nat, e: string)
    requires 0 < a < Pow10(10) && 0 < b < Pow10(10)
    requires IsValidEncf(e)
    ensures TextLeq(FormatEncf(t, a), e) && TextLeq(e, FormatEncf(t, b))
            <==> TypeOf(e) == t && a <= NumberOf(e) <= b
  {
    var u, n := TypeOf(e), NumberOf(e);
    FormatOfParse(e);
    FormatIsFixed(t, a);
    FormatIsFixed(t, b);
    FormatIsFixed(u, n);
    TextLeqPrefix(Prefix(t), FixedDigits(10, a), Prefix(u), FixedDigits(10, n));
    TextLeqPrefix(Prefix(u), FixedDigits(10, n), Prefix(t), FixedDigits(10, b));
    if t == u {
      PaddedOrderIsNumericOrder(10, a, n);
      PaddedOrderIsNumericOrder(10, n, b);
    } else if TextLeq(Prefix(t), Prefix(u)) && TextLeq(Prefix(u), Prefix(t)) {
      TextLeqAntisymmetric(Prefix(t), Prefix(u));
    }
  }
}
