/** XML escaping as a chain of whole-text replacements, its one-pass meaning, and
    decoding of character and entity references. */
module EscapeXml {
  import opened EcfTypes
  import opened Digits

  // ----- the chain of replacements -----

  function ReplaceAll(s: string, c: char, t: string): string {
    if s == "" then "" else (if s[0] == c then t else [s[0]]) + ReplaceAll(s[1..], c, t)
  }

  /** The control characters that section 2.2 of XML 1.0 excludes. */
  predicate IsExcludedControl(c: char) {
    var n := c as int;
    n <= 0x08 || n == 0x0B || n == 0x0C || (0x0E <= n <= 0x1F)
  }

  function StripControls(s: string): string {
    if s == "" then "" else (if IsExcludedControl(s[0]) then "" else [s[0]]) + StripControls(s[1..])
  }

  const TAB: char := '\t'
  const LF: char := '\n'
  const CR: char := '\r'

  function ReplaceEntities(s: string): string {
    var amp := ReplaceAll(s, '&', "&amp;");
    var lt := ReplaceAll(amp, '<', "&lt;");
    var gt := ReplaceAll(lt, '>', "&gt;");
    var quot := ReplaceAll(gt, '"', "&#34;");
    var apos := ReplaceAll(quot, '\'', "&#39;");
    var tab := ReplaceAll(apos, TAB, "&#9;");
    var lf := ReplaceAll(tab, LF, "&#10;");
    ReplaceAll(lf, CR, "&#13;")
  }

  function EscapeXml(s: string): string {
    ReplaceEntities(StripControls(s))
  }

  // ----- one pass -----

  function EscapeChar(c: char): string {
    if IsExcludedControl(c) then ""
    else if c == '&' then "&amp;"
    else if c == '<' then "&lt;"
    else if c == '>' then "&gt;"
    else if c == '"' then "&#34;"
    else if c == '\'' then "&#39;"
    else if c == TAB then "&#9;"
    else if c == LF then "&#10;"
    else if c == CR then "&#13;"
    else [c]
  }

  function EscapeEach(s: string): string {
    if s == "" then "" else EscapeChar(s[0]) + EscapeEach(s[1..])
  }

  lemma {:induction false} ReplaceConcat(a: string, b: string, c: char, t: string)
    ensures ReplaceAll(a + b, c, t) == ReplaceAll(a, c, t) + ReplaceAll(b, c, t)
  {
    if a == "" {
      assert a + b == b;
    } else {
      assert (a + b)[1..] == a[1..] + b;
      ReplaceConcat(a[1..], b, c, t);
    }
  }

  lemma {:induction false} ReplaceAbsent(s: string, c: char, t: string)
    requires c !in s
    ensures ReplaceAll(s, c, t) == s
  {
    if s != "" {
      ReplaceAbsent(s[1..], c, t);
      assert [s[0]] + s[1..] == s;
    }
  }

  lemma ReplaceOne(c: char, d: char, t: string)
    ensures ReplaceAll([c], d, t) == if c == d then t else [c]
  {
    assert [c][1..] == "";
  }

  lemma EntitiesConcat(a: string, b: string)
    ensures ReplaceEntities(a + b) == ReplaceEntities(a) + ReplaceEntities(b)
  {
    ReplaceConcat(a, b, '&', "&amp;");
    var a1, b1 := ReplaceAll(a, '&', "&amp;"), ReplaceAll(b, '&', "&amp;");
    ReplaceConcat(a1, b1, '<', "&lt;");
    var a2, b2 := ReplaceAll(a1, '<', "&lt;"), ReplaceAll(b1, '<', "&lt;");
    ReplaceConcat(a2, b2, '>', "&gt;");
    var a3, b3 := ReplaceAll(a2, '>', "&gt;"), ReplaceAll(b2, '>', "&gt;");
    ReplaceConcat(a3, b3, '"', "&#34;");
    var a4, b4 := ReplaceAll(a3, '"', "&#34;"), ReplaceAll(b3, '"', "&#34;");
    ReplaceConcat(a4, b4, '\'', "&#39;");
    var a5, b5 := ReplaceAll(a4, '\'', "&#39;"), ReplaceAll(b4, '\'', "&#39;");
    ReplaceConcat(a5, b5, TAB, "&#9;");
    var a6, b6 := ReplaceAll(a5, TAB, "&#9;"), ReplaceAll(b5, TAB, "&#9;");
    ReplaceConcat(a6, b6, LF, "&#10;");
    var a7, b7 := ReplaceAll(a6, LF, "&#10;"), ReplaceAll(b6, LF, "&#10;");
    ReplaceConcat(a7, b7, CR, "&#13;");
  }

  /** A text made of reference characters passes the later replacements unchanged. */
  lemma Untouched(s: string, c: char, t: string)
    requires c in {'<', '>', '"', '\'', TAB, LF, CR}
    requires s in {"&amp;", "&lt;", "&gt;", "&#34;", "&#39;", "&#9;", "&#10;", "&#13;"}
    ensures ReplaceAll(s, c, t) == s
  {
    ReplaceAbsent(s, c, t);
  }

  lemma EntitiesOfOne(c: char)
    requires !IsExcludedControl(c)
    ensures ReplaceEntities([c]) == EscapeChar(c)
  {
    ReplaceOne(c, '&', "&amp;");
    ReplaceOne(c, '<', "&lt;");
    ReplaceOne(c, '>', "&gt;");
    ReplaceOne(c, '"', "&#34;");
    ReplaceOne(c, '\'', "&#39;");
    ReplaceOne(c, TAB, "&#9;");
    ReplaceOne(c, LF, "&#10;");
    ReplaceOne(c, CR, "&#13;");
    var e := EscapeChar(c);
    if e != [c] {
      Untouched(e, '<', "&lt;");
      Untouched(e, '>', "&gt;");
      Untouched(e, '"', "&#34;");
      Untouched(e, '\'', "&#39;");
      Untouched(e, TAB, "&#9;");
      Untouched(e, LF, "&#10;");
      Untouched(e, CR, "&#13;");
    }
  }

  /** The eight replacements over the whole text, one after another, come to a
      single pass that substitutes each character on its own. */
  lemma {:induction false} ChainIsOnePass(s: string)
    ensures EscapeXml(s) == EscapeEach(s)
  {
    if s != "" {
      ChainIsOnePass(s[1..]);
      if IsExcludedControl(s[0]) {
        assert StripControls(s) == StripControls(s[1..]);
      } else {
        assert StripControls(s) == [s[0]] + StripControls(s[1..]);
        EntitiesConcat([s[0]], StripControls(s[1..]));
        EntitiesOfOne(s[0]);
      }
    }
  }

  // ----- the output carries no markup -----

  predicate IsRawMarkup(c: char) {
    c == '<' || c == '>' || c == '"' || c == '\'' || c == TAB || c == LF || c == CR || IsExcludedControl(c)
  }

  lemma EscapedCharHasNoMarkup(c: char)
    ensures forall i :: 0 <= i < |EscapeChar(c)| ==> !IsRawMarkup(EscapeChar(c)[i])
  {}

  lemma {:induction false} OnePassHasNoMarkup(s: string)
    ensures forall i :: 0 <= i < |EscapeEach(s)| ==> !IsRawMarkup(EscapeEach(s)[i])
  {
    if s != "" {
      OnePassHasNoMarkup(s[1..]);
      EscapedCharHasNoMarkup(s[0]);
    }
  }

  /** No character of the output is markup, a quote, white space other than blank,
      or an excluded control. */
  lemma OutputHasNoMarkup(s: string)
    ensures forall i :: 0 <= i < |EscapeXml(s)| ==> !IsRawMarkup(EscapeXml(s)[i])
  {
    ChainIsOnePass(s);
    OnePassHasNoMarkup(s);
  }

  /** Characters that section 2.2 of XML 1.0 allows in a document. */
  predicate IsXmlChar(c: char) {
    c == TAB || c == LF || c == CR || 0x20 <= c as int <= 0xD7FF || 0xE000 <= c as int <= 0xFFFD || 0x10000 <= c as int
  }

  predicate IsNoncharacter(c: char) {
    c as int == 0xFFFE || c as int == 0xFFFF
  }

  predicate AllXmlChars(s: string) {
    forall i :: 0 <= i < |s| ==> IsXmlChar(s[i])
  }

  predicate HasNoncharacter(s: string) {
    exists i :: 0 <= i < |s| && IsNoncharacter(s[i])
  }

  lemma XmlCharsConcat(a: string, b: string)
    ensures AllXmlChars(a + b) <==> AllXmlChars(a) && AllXmlChars(b)
  {
    if AllXmlChars(a + b) {
      assert forall i :: 0 <= i < |a| ==> a[i] == (a + b)[i];
      assert forall i :: 0 <= i < |b| ==> b[i] == (a + b)[|a| + i];
    }
  }

  lemma EscapedCharIsXmlTextIff(c: char)
    ensures AllXmlChars(EscapeChar(c)) <==> !IsNoncharacter(c)
  {
    if IsNoncharacter(c) {
      assert !IsXmlChar(EscapeChar(c)[0]);
    }
  }

  lemma NoncharacterHeadTail(s: string)
    requires s != ""
    ensures HasNoncharacter(s) <==> IsNoncharacter(s[0]) || HasNoncharacter(s[1..])
  {
    if HasNoncharacter(s[1..]) {
      var i :| 0 <= i < |s[1..]| && IsNoncharacter(s[1..][i]);
      assert IsNoncharacter(s[i + 1]);
    }
    if HasNoncharacter(s) && !IsNoncharacter(s[0]) {
      var i :| 0 <= i < |s| && IsNoncharacter(s[i]);
      assert IsNoncharacter(s[1..][i - 1]);
    }
  }

  lemma {:induction false} OnePassIsXmlTextIff(s: string)
    ensures AllXmlChars(EscapeEach(s)) <==> !HasNoncharacter(s)
  {
    if s != "" {
      OnePassIsXmlTextIff(s[1..]);
      NoncharacterHeadTail(s);
      EscapedCharIsXmlTextIff(s[0]);
      XmlCharsConcat(EscapeChar(s[0]), EscapeEach(s[1..]));
    }
  }

  /** The output is text that XML 1.0 allows exactly when the input is free of
      U+FFFE and U+FFFF: those two are not stripped. */
  lemma OutputIsXmlTextIff(s: string)
    ensures AllXmlChars(EscapeXml(s)) <==> !HasNoncharacter(s)
  {
    ChainIsOnePass(s);
    OnePassIsXmlTextIff(s);
  }

  // ----- decoding -----

  /** The text up to the next semicolon, if there is one. */
  function UpToSemicolon(s: string): (r: Option<string>)
    ensures r.Some? ==> |r.value| < |s| && s[|r.value|] == ';'
  {
    if s == "" then None
    else if s[0] == ';' then Some("")
    else
      match UpToSemicolon(s[1..])
      case None => None
      case Some(name) => Some([s[0]] + name)
  }

  /** The character a reference names: a predefined entity of section 4.6, or a
      decimal character reference of section 4.1 in the ASCII range. */
  function NamedChar(name: string): Option<char> {
    if name == "amp" then Some('&')
    else if name == "lt" then Some('<')
    else if name == "gt" then Some('>')
    else if name == "quot" then Some('"')
    else if name == "apos" then Some('\'')
    else if |name| >= 2 && name[0] == '#' && AllDigits(name[1..]) && ParseDigits(name[1..]) < 128
    then Some(ParseDigits(name[1..]) as char)
    else None
  }

  /** Text content with its references resolved; None for a malformed reference
      or raw markup. */
  function Decode(s: string): Option<string> {
    if s == "" then Some("")
    else if s[0] == '&' then
      match UpToSemicolon(s[1..])
      case None => None
      case Some(name) =>
        (match NamedChar(name)
         case None => None
         case Some(c) =>
           match Decode(s[|name| + 2..])
           case None => None
           case Some(rest) => Some([c] + rest))
    else if s[0] == '<' then None
    else
      match Decode(s[1..])
      case None => None
      case Some(rest) => Some([s[0]] + rest)
  }

  lemma {:induction false} SemicolonFound(name: string, rest: string)
    requires ';' !in name
    ensures UpToSemicolon(name + [';'] + rest) == Some(name)
  {
    var s := name + [';'] + rest;
    if name != "" {
      assert s[1..] == name[1..] + [';'] + rest;
      SemicolonFound(name[1..], rest);
      assert [name[0]] + name[1..] == name;
    }
  }

  lemma ReferenceDecodes(name: string, c: char, rest: string)
    requires ';' !in name && NamedChar(name) == Some(c)
    ensures Decode(['&'] + name + [';'] + rest) == match Decode(rest) case None => None case Some(r) => Some([c] + r)
  {
    var s := ['&'] + name + [';'] + rest;
    assert s[1..] == name + [';'] + rest;
    SemicolonFound(name, rest);
    assert s[|name| + 2..] == rest;
  }

  lemma DigitsDecode()
    ensures NamedChar("#34") == Some('"') && NamedChar("#39") == Some('\'')
    ensures NamedChar("#9") == Some(TAB) && NamedChar("#10") == Some(LF) && NamedChar("#13") == Some(CR)
  {
    assert "#34"[1..] == "34" && "34"[..1] == "3" && "3"[..0] == "";
    assert "#39"[1..] == "39" && "39"[..1] == "3";
    assert "#10"[1..] == "10" && "10"[..1] == "1" && "1"[..0] == "";
    assert "#13"[1..] == "13" && "13"[..1] == "1";
    assert "#9"[1..] == "9" && "9"[..0] == "";
  }

  lemma EscapedCharDecodes(c: char, rest: string)
    requires !IsExcludedControl(c)
    ensures Decode(EscapeChar(c) + rest) == match Decode(rest) case None => None case Some(r) => Some([c] + r)
  {
    DigitsDecode();
    if c == '&' {
      assert "&amp;" == ['&'] + "amp" + [';'];
      ReferenceDecodes("amp", c, rest);
    } else if c == '<' {
      assert "&lt;" == ['&'] + "lt" + [';'];
      ReferenceDecodes("lt", c, rest);
    } else if c == '>' {
      assert "&gt;" == ['&'] + "gt" + [';'];
      ReferenceDecodes("gt", c, rest);
    } else if c == '"' {
      assert "&#34;" == ['&'] + "#34" + [';'];
      ReferenceDecodes("#34", c, rest);
    } else if c == '\'' {
      assert "&#39;" == ['&'] + "#39" + [';'];
      ReferenceDecodes("#39", c, rest);
    } else if c == TAB {
      assert "&#9;" == ['&'] + "#9" + [';'];
      ReferenceDecodes("#9", c, rest);
    } else if c == LF {
      assert "&#10;" == ['&'] + "#10" + [';'];
      ReferenceDecodes("#10", c, rest);
    } else if c == CR {
      assert "&#13;" == ['&'] + "#13" + [';'];
      ReferenceDecodes("#13", c, rest);
    } else {
      assert ([c] + rest)[1..] == rest;
    }
  }

  lemma {:induction false} DecodeOfOnePass(s: string)
    ensures Decode(EscapeEach(s)) == Some(StripControls(s))
  {
    if s != "" {
      DecodeOfOnePass(s[1..]);
      if IsExcludedControl(s[0]) {
        assert EscapeEach(s) == EscapeEach(s[1..]) && StripControls(s) == StripControls(s[1..]);
      } else {
        EscapedCharDecodes(s[0], EscapeEach(s[1..]));
      }
    }
  }

  /** Decoding an escaped text gives the text back without its excluded controls. */
  lemma DecodeOfEscape(s: string)
    ensures Decode(EscapeXml(s)) == Some(StripControls(s))
  {
    ChainIsOnePass(s);
    DecodeOfOnePass(s);
  }

  /** So two texts escape alike only when they differ in excluded controls. */
  lemma EscapeInjective(s: string, t: string)
    ensures EscapeXml(s) == EscapeXml(t) <==> StripControls(s) == StripControls(t)
  {
    DecodeOfEscape(s);
    DecodeOfEscape(t);
  }
}
