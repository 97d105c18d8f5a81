/** The string primitives the storefront leans on: `String.prototype.trim`,
    `toLowerCase`, `includes`, `String(n)` for integers and `Number(s)` for
    integer literals. */
module Text {
  import opened Wrappers

  /** A white-space or line-terminator code point in the sense of sections 12.2
      and 12.3 of ECMA-262: what `trim` and `Number` strip from both ends. */
  predicate IsWhiteSpace(c: char) {
    || c == '\t' || c == '\n' || c == '\U{000B}' || c == '\U{000C}' || c == '\r'
    || c == ' ' || c == '\U{00A0}' || c == '\U{1680}'
    || ('\U{2000}' <= c <= '\U{200A}')
    || c == '\U{2028}' || c == '\U{2029}' || c == '\U{202F}' || c == '\U{205F}'
    || c == '\U{3000}' || c == '\U{FEFF}'
  }

  /** `trimStart`: drops the longest white-space prefix. */
  function TrimStart(s: string): (r: string)
    ensures |r| <= |s| && r == s[|s| - |r|..]
    ensures forall i :: 0 <= i < |s| - |r| ==> IsWhiteSpace(s[i])
    ensures r == [] || !IsWhiteSpace(r[0])
  {
    if s != [] && IsWhiteSpace(s[0]) then TrimStart(s[1..]) else s
  }

  /** `trimEnd`: drops the longest white-space suffix. */
  function TrimEnd(s: string): (r: string)
    ensures |r| <= |s| && r == s[..|r|]
    ensures forall i :: |r| <= i < |s| ==> IsWhiteSpace(s[i])
    ensures r == [] || !IsWhiteSpace(r[|r| - 1])
  {
    if s != [] && IsWhiteSpace(s[|s| - 1]) then TrimEnd(s[..|s| - 1]) else s
  }

  /** `trim`: the infix of `s` left after removing white space at both ends. */
  function Trim(s: string): (r: string)
    ensures r == [] || (!IsWhiteSpace(r[0]) && !IsWhiteSpace(r[|r| - 1]))
    ensures exists a :: TrimmedAt(s, r, a)
  {
    var t := TrimStart(s);
    var r := TrimEnd(t);
    assert TrimmedAt(s, r, |s| - |t|);
    r
  }

  /** `r` is `s[a..a + |r|]` and everything around it in `s` is white space. */
  ghost predicate TrimmedAt(s: string, r: string, a: int) {
    && 0 <= a && a + |r| <= |s|
    && r == s[a..a + |r|]
    && (forall i :: 0 <= i < a ==> IsWhiteSpace(s[i]))
    && (forall i :: a + |r| <= i < |s| ==> IsWhiteSpace(s[i]))
  }

  /** A string with no white space at either end is its own trim. */
  lemma TrimOfTrimmed(s: string)
    requires s == [] || (!IsWhiteSpace(s[0]) && !IsWhiteSpace(s[|s| - 1]))
    ensures Trim(s) == s
  {
  }

  /** `toLowerCase` on one code point, over the ASCII letters. */
  function LowerChar(c: char): char {
    if 'A' <= c <= 'Z' then (c as int + 32) as char else c
  }

  /** `toLowerCase`, code point by code point. */
  function Lower(s: string): (r: string)
    ensures |r| == |s|
    ensures forall i :: 0 <= i < |s| ==> r[i] == LowerChar(s[i])
  {
    if s == [] then [] else [LowerChar(s[0])] + Lower(s[1..])
  }

  /** After lower-casing no ASCII capital is left, and lower-casing again changes nothing. */
  lemma LowerIsLower(s: string)
    ensures forall i :: 0 <= i < |s| ==> !('A' <= Lower(s)[i] <= 'Z')
    ensures Lower(Lower(s)) == Lower(s)
  {
  }

  /** Lower-casing keeps white space and changes nothing else about it. */
  lemma LowerCharWhiteSpace(c: char)
    ensures IsWhiteSpace(LowerChar(c)) <==> IsWhiteSpace(c)
    ensures IsWhiteSpace(c) ==> LowerChar(c) == c
  {
  }

  /** Lower-casing commutes with `trimStart`. */
  lemma {:induction false} LowerTrimStart(s: string)
    ensures Lower(TrimStart(s)) == TrimStart(Lower(s))
  {
    if s != [] {
      LowerCharWhiteSpace(s[0]);
      assert Lower(s)[1..] == Lower(s[1..]);
      if IsWhiteSpace(s[0]) {
        LowerTrimStart(s[1..]);
      }
    }
  }

  /** Lower-casing commutes with `trimEnd`. */
  lemma {:induction false} LowerTrimEnd(s: string)
    ensures Lower(TrimEnd(s)) == TrimEnd(Lower(s))
    decreases |s|
  {
    if s != [] {
      LowerCharWhiteSpace(s[|s| - 1]);
      var init := s[..|s| - 1];
      assert Lower(s)[..|s| - 1] == Lower(init);
      if IsWhiteSpace(s[|s| - 1]) {
        LowerTrimEnd(init);
      }
    }
  }

  /** Lower-casing commutes with `trim`: `s.trim().toLowerCase()` equals
      `s.toLowerCase().trim()`. */
  lemma LowerTrim(s: string)
    ensures Lower(Trim(s)) == Trim(Lower(s))
  {
    LowerTrimStart(s);
    LowerTrimEnd(TrimStart(s));
  }

  /** `needle` sits in `hay` starting at offset `i`. */
  predicate OccursAt(hay: string, needle: string, i: int) {
    0 <= i && i + |needle| <= |hay| && hay[i..i + |needle|] == needle
  }

  /** An occurrence in `hay` is at offset 0 or is an occurrence in `hay[1..]`, shifted by one. */
  lemma OccursShift(hay: string, needle: string)
    requires hay != []
    ensures (exists i :: OccursAt(hay, needle, i)) <==>
      OccursAt(hay, needle, 0) || exists j :: OccursAt(hay[1..], needle, j)
  {
    forall i | OccursAt(hay, needle, i) && i != 0
      ensures OccursAt(hay[1..], needle, i - 1)
    {
      assert hay[1..][i - 1..i - 1 + |needle|] == hay[i..i + |needle|];
    }
    forall j | OccursAt(hay[1..], needle, j)
      ensures OccursAt(hay, needle, j + 1)
    {
      assert hay[1..][j..j + |needle|] == hay[j + 1..j + 1 + |needle|];
    }
  }

  /** `includes`: scans `hay` left to right, and succeeds exactly when `needle`
      occurs at some offset. */
  function Contains(hay: string, needle: string): (r: bool)
    ensures r <==> exists i :: OccursAt(hay, needle, i)
    decreases |hay|
  {
    if |needle| > |hay| then false
    else if hay[..|needle|] == needle then
      assert OccursAt(hay, needle, 0);
      true
    else
      OccursShift(hay, needle);
      Contains(hay[1..], needle)
  }

  predicate IsDigit(c: char) {
    '0' <= c <= '9'
  }

  predicate AllDigits(s: string) {
    forall i :: 0 <= i < |s| ==> IsDigit(s[i])
  }

  function DigitChar(d: int): (c: char)
    requires 0 <= d < 10
    ensures IsDigit(c) && c as int - '0' as int == d
  {
    ('0' as int + d) as char
  }

  /** The decimal digits of `n`, most significant first, without leading zeros. */
  function NatToString(n: nat): (r: string)
    ensures r != [] && AllDigits(r)
    ensures |r| > 1 ==> r[0] != '0'
  {
    if n < 10 then [DigitChar(n)] else NatToString(n / 10) + [DigitChar(n % 10)]
  }

  /** `String(i)` for an integer `i`. */
  function IntToString(i: int): (r: string)
    ensures CanonicalDecimal(i, r)
  {
    DigitsValueOfNat(if i < 0 then -i else i);
    assert i < 0 ==> ("-" + NatToString(-i))[1..] == NatToString(-i);
    if i < 0 then "-" + NatToString(-i) else NatToString(i)
  }

  /** `r` is the canonical decimal text of `i`: a `-` exactly for negatives, then
      digits without leading zeros whose value is the magnitude of `i`. */
  predicate CanonicalDecimal(i: int, r: string) {
    && (i < 0 ==> r != [] && r[0] == '-')
    && var d := if i < 0 then r[1..] else r;
    && d != [] && AllDigits(d) && (|d| > 1 ==> d[0] != '0')
    && DigitsValue(d) == if i < 0 then -i else i
  }

  /** The value of a string of decimal digits; leading zeros are allowed. */
  function DigitsValue(ds: string): nat
    requires AllDigits(ds)
  {
    if ds == [] then 0
    else DigitsValue(ds[..|ds| - 1]) * 10 + (ds[|ds| - 1] as int - '0' as int)
  }

  /** Reading back the digits of `n` gives `n`. */
  lemma {:induction false} DigitsValueOfNat(n: nat)
    ensures DigitsValue(NatToString(n)) == n
  {
    if n >= 10 {
      var ds := NatToString(n);
      assert ds[..|ds| - 1] == NatToString(n / 10);
      DigitsValueOfNat(n / 10);
    }
  }

  /** A signed decimal integer literal: an optional `+` or `-`, then one or more digits. */
  predicate IsIntegerLiteral(t: string) {
    exists k :: 0 <= k <= 1 && k < |t| && (k == 1 ==> t[0] in "+-") && AllDigits(t[k..])
  }

  /** The two shapes of an integer literal: unsigned, or signed. */
  lemma IntegerLiteralShapes(t: string)
    ensures IsIntegerLiteral(t) <==>
      (t != [] && AllDigits(t)) || (|t| > 1 && t[0] in "+-" && AllDigits(t[1..]))
  {
    if t != [] && AllDigits(t) {
      assert t[0..] == t;
    }
  }

  /** `Number` on text that is already trimmed. */
  function ParseTrimmed(t: string): (r: Option<int>)
    ensures r.None? <==> t != [] && !IsIntegerLiteral(t)
    ensures t == [] ==> r == Some(0)
    ensures t != [] && AllDigits(t) ==> r == Some(DigitsValue(t))
    ensures |t| > 1 && t[0] == '-' && AllDigits(t[1..]) ==> r == Some(-(DigitsValue(t[1..]) as int))
    ensures |t| > 1 && t[0] == '+' && AllDigits(t[1..]) ==> r == Some(DigitsValue(t[1..]))
  {
    IntegerLiteralShapes(t);
    if t == [] then Some(0)
    else if AllDigits(t) then Some(DigitsValue(t))
    else if |t| > 1 && t[0] == '-' && AllDigits(t[1..]) then Some(-(DigitsValue(t[1..]) as int))
    else if |t| > 1 && t[0] == '+' && AllDigits(t[1..]) then Some(DigitsValue(t[1..]))
    else None
  }

  /** `Number(s)` for strings holding at most an integer literal: surrounding
      white space is ignored, a blank string is zero, an optional sign may lead
      the digits, and anything else is `NaN` (here `None`). */
  function StringToInt(s: string): (r: Option<int>)
    ensures r.None? <==> Trim(s) != [] && !IsIntegerLiteral(Trim(s))
    ensures Trim(s) == [] ==> r == Some(0)
    ensures Trim(s) != [] && AllDigits(Trim(s)) ==> r == Some(DigitsValue(Trim(s)))
    ensures |Trim(s)| > 1 && Trim(s)[0] == '-' && AllDigits(Trim(s)[1..]) ==>
      r == Some(-(DigitsValue(Trim(s)[1..]) as int))
    ensures |Trim(s)| > 1 && Trim(s)[0] == '+' && AllDigits(Trim(s)[1..]) ==>
      r == Some(DigitsValue(Trim(s)[1..]))
  {
    ParseTrimmed(Trim(s))
  }

  /** Canonical decimal text parses back to its value. */
  lemma ParseCanonical(i: int, r: string)
    requires CanonicalDecimal(i, r)
    ensures ParseTrimmed(r) == Some(i)
  {
    if i < 0 {
      assert !IsDigit(r[0]);
      assert !AllDigits(r);
    }
  }

  /** `Number(String(i)) === i` for every integer. */
  lemma IntStringRoundTrip(i: int)
    ensures StringToInt(IntToString(i)) == Some(i)
  {
    var s := IntToString(i);
    assert IsDigit(s[0]) || s[0] == '-';
    TrimOfTrimmed(s);
    ParseCanonical(i, s);
  }
}
