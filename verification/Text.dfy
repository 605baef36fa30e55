/** Strings as the program handles them: decimal printing, splitting, stripping. */
module Text {
  import opened Prelude

  // ----- decimal numbers -----

  predicate IsDigit(c: char) {
    '0' <= c <= '9'
  }

  predicate AllDigits(s: string) {
    forall i :: 0 <= i < |s| ==> IsDigit(s[i])
  }

  function DigitChar(d: nat): (c: char)
    requires d < 10
    ensures IsDigit(c) && DigitValue(c) == d
  {
    ('0' as int + d) as char
  }

  function DigitValue(c: char): (d: nat)
    requires IsDigit(c)
    ensures d < 10
  {
    c as int - '0' as int
  }

  /** `str(n)` for a natural number. */
  function Decimal(n: nat): (s: string)
    ensures |s| > 0 && AllDigits(s)
  {
    if n < 10 then [DigitChar(n)] else Decimal(n / 10) + [DigitChar(n % 10)]
  }

  /** `int(s)` for a string of ASCII digits. */
  function ParseDecimal(s: string): nat
    requires AllDigits(s)
  {
    if s == "" then 0 else 10 * ParseDecimal(s[..|s| - 1]) + DigitValue(s[|s| - 1])
  }

  lemma {:induction false} ParseOfDecimal(n: nat)
    ensures ParseDecimal(Decimal(n)) == n
  {
    if n >= 10 {
      var head := Decimal(n / 10);
      assert Decimal(n)[..|Decimal(n)| - 1] == head;
      ParseOfDecimal(n / 10);
    }
  }

  lemma DecimalInjective(m: nat, n: nat)
    requires Decimal(m) == Decimal(n)
    ensures m == n
  {
    ParseOfDecimal(m);
    ParseOfDecimal(n);
  }

  /**
   The two tests for a digit, over all of Unicode: `str.isdigit` asks for a character of a digit
   type, superscripts among them; `int` takes only decimal digits, of any script, by their value.
   */
  datatype Chars = Chars(digit: char -> bool, decimal: char -> Option<nat>)

  const SUPERSCRIPT_TWO: char := '\U{b2}'
  const ARABIC_INDIC_ZERO: char := '\U{660}'

  ghost predicate Unicode(t: Chars) {
    && (forall c :: IsDigit(c) ==> t.decimal(c) == Some(DigitValue(c)))
    && (forall c :: t.decimal(c).Some? ==> t.decimal(c).value < 10 && t.digit(c))
    && t.digit(SUPERSCRIPT_TWO) && t.decimal(SUPERSCRIPT_TWO).None?
    && (forall k: nat :: k < 10 ==> t.decimal((ARABIC_INDIC_ZERO as int + k) as char) == Some(k))
  }

  /** `s.isdigit()` */
  predicate IsDigits(t: Chars, s: string) {
    s != "" && forall i :: 0 <= i < |s| ==> t.digit(s[i])
  }

  /** `int(s)` for a string of digits; none where it raises. */
  function IntOf(t: Chars, s: string): (r: Option<nat>)
    ensures r.Some? <==> forall i :: 0 <= i < |s| ==> t.decimal(s[i]).Some?
  {
    if s == "" then Some(0)
    else
      var head, last := IntOf(t, s[..|s| - 1]), t.decimal(s[|s| - 1]);
      assert forall i :: 0 <= i < |s| - 1 ==> s[..|s| - 1][i] == s[i];
      if head.Some? && last.Some? then Some(10 * head.value + last.value) else None
  }

  lemma {:induction false} AsciiInt(t: Chars, s: string)
    requires Unicode(t) && AllDigits(s)
    ensures IntOf(t, s) == Some(ParseDecimal(s)) && (s != "" ==> IsDigits(t, s))
  {
    if s != "" {
      AsciiInt(t, s[..|s| - 1]);
      assert forall i :: 0 <= i < |s| ==> IsDigit(s[i]);
    }
  }

  /** Such tables exist. */
  lemma UnicodeIsSatisfiable()
    ensures exists t :: Unicode(t)
  {
    var decimal := (c: char) =>
      if IsDigit(c) then Some(DigitValue(c))
      else if ARABIC_INDIC_ZERO <= c && c as int - ARABIC_INDIC_ZERO as int < 10 then Some(c as int - ARABIC_INDIC_ZERO as int)
      else None;
    var t := Chars((c: char) => decimal(c).Some? || c == SUPERSCRIPT_TWO, decimal);
    assert Unicode(t);
  }

  /** `str(n)` for any integer. */
  function DecimalInt(n: int): (s: string)
    ensures |s| > 0
    ensures forall c :: c in s ==> IsDigit(c) || c == '-'
  {
    if n < 0 then "-" + Decimal(-n) else Decimal(n)
  }

  lemma DecimalIntInjective(m: int, n: int)
    requires DecimalInt(m) == DecimalInt(n)
    ensures m == n
  {
    var a, b := if m < 0 then Decimal(-m) else Decimal(m), if n < 0 then Decimal(-n) else Decimal(n);
    assert m < 0 ==> DecimalInt(m)[0] == '-' && DecimalInt(m)[1..] == a;
    assert n < 0 ==> DecimalInt(n)[0] == '-' && DecimalInt(n)[1..] == b;
    assert m >= 0 ==> IsDigit(DecimalInt(m)[0]);
    assert n >= 0 ==> IsDigit(DecimalInt(n)[0]);
    DecimalInjective(if m < 0 then -m else m, if n < 0 then -n else n);
  }

  // ----- splitting at a separator -----

  /** A string splits in one way at the first occurrence of a character. */
  lemma SplitAtFirst(a: string, x: string, b: string, y: string, c: char)
    requires c !in a && c !in b
    requires a + [c] + x == b + [c] + y
    ensures a == b && x == y
  {
    var s := a + [c] + x;
    assert s[|a|] == c && s[|b|] == c;
    assert forall i :: 0 <= i < |a| ==> s[i] == a[i];
    assert forall i :: 0 <= i < |b| ==> s[i] == b[i];
    assert |a| == |b|;
    assert a == s[..|a|] == b;
    assert x == s[|a| + 1..] == y;
  }

  /** A string splits in one way at the last occurrence of a character. */
  lemma SplitAtLast(a: string, x: string, b: string, y: string, c: char)
    requires c !in x && c !in y
    requires a + [c] + x == b + [c] + y
    ensures a == b && x == y
  {
    var s := a + [c] + x;
    assert s[|a|] == c && s[|b|] == c;
    assert forall i :: |a| < i < |s| ==> s[i] == x[i - |a| - 1];
    assert forall i :: |b| < i < |s| ==> s[i] == y[i - |b| - 1];
    assert |a| == |b|;
    assert a == s[..|a|] == b;
    assert x == s[|a| + 1..] == y;
  }

  /** What stands before a common ending is determined. */
  lemma SameSuffix(a: string, b: string, z: string)
    requires a + z == b + z
    ensures a == b
  {
    assert |a| == |b|;
    assert a == (a + z)[..|a|] == (b + z)[..|b|] == b;
  }

  /** `s.partition(c)`: what stands before and after the first `c`, if there is one. */
  function Partition(s: string, c: char): (r: Option<(string, string)>)
    ensures r.None? <==> c !in s
    ensures r.Some? ==> s == r.value.0 + [c] + r.value.1 && c !in r.value.0
  {
    if s == "" then None
    else if s[0] == c then Some(("", s[1..]))
    else
      match Partition(s[1..], c)
      case None => None
      case Some((h, t)) => Some(([s[0]] + h, t))
  }

  lemma PartitionAt(h: string, c: char, t: string)
    requires c !in h
    ensures Partition(h + [c] + t, c) == Some((h, t))
  {
    var s := h + [c] + t;
    assert s[|h|] == c;
    var r := Partition(s, c).value;
    SplitAtFirst(h, t, r.0, r.1, c);
  }

  /** `s.rsplit(c, 1)`: what stands before and after the last `c`, if there is one. */
  function RSplit(s: string, c: char): (r: Option<(string, string)>)
    ensures r.None? <==> c !in s
    ensures r.Some? ==> s == r.value.0 + [c] + r.value.1 && c !in r.value.1
  {
    if s == "" then None
    else
      var n := |s| - 1;
      assert s == s[..n] + [s[n]];
      if s[n] == c then Some((s[..n], ""))
      else
        match RSplit(s[..n], c)
        case None => None
        case Some((h, t)) => Some((h, t + [s[n]]))
  }

  lemma RSplitAt(h: string, c: char, t: string)
    requires c !in t
    ensures RSplit(h + [c] + t, c) == Some((h, t))
  {
    var s := h + [c] + t;
    assert s[|h|] == c;
    var r := RSplit(s, c).value;
    SplitAtLast(h, t, r.0, r.1, c);
  }

  // ----- stripping whitespace -----

  /** The characters `str.strip()` removes. */
  predicate IsSpace(c: char) {
    || '\t' <= c <= '\r'
    || '\U{1c}' <= c <= ' '
    || c in {'\U{85}', '\U{a0}', '\U{1680}', '\U{2028}', '\U{2029}', '\U{202f}', '\U{205f}', '\U{3000}'}
    || '\U{2000}' <= c <= '\U{200a}'
  }

  predicate AllSpace(s: string) {
    forall i :: 0 <= i < |s| ==> IsSpace(s[i])
  }

  /** Nothing to strip at either end. */
  predicate Trimmed(s: string) {
    s != "" ==> !IsSpace(s[0]) && !IsSpace(s[|s| - 1])
  }

  /** How many whitespace characters a string opens with. */
  function Leading(s: string): (k: nat)
    ensures k <= |s| && AllSpace(s[..k])
    ensures k < |s| ==> !IsSpace(s[k])
  {
    if s != "" && IsSpace(s[0]) then
      var k := Leading(s[1..]);
      assert s[..k + 1] == [s[0]] + s[1..][..k];
      k + 1
    else 0
  }

  function LStrip(s: string): string {
    s[Leading(s)..]
  }

  function RStrip(s: string): (r: string)
    ensures r != "" ==> !IsSpace(r[|r| - 1])
    ensures r <= s && AllSpace(s[|r|..])
  {
    if s != "" && IsSpace(s[|s| - 1]) then
      var r := RStrip(s[..|s| - 1]);
      assert s[|r|..] == s[..|s| - 1][|r|..] + [s[|s| - 1]];
      r
    else s
  }

  /** `s.strip()` */
  function Strip(s: string): (r: string)
    ensures Trimmed(r)
  {
    RStrip(LStrip(s))
  }

  /** Every string is its stripped self between two runs of whitespace. */
  lemma StripParts(s: string) returns (l: string, r: string)
    ensures AllSpace(l) && AllSpace(r) && s == l + Strip(s) + r
  {
    var m := LStrip(s);
    l, r := s[..Leading(s)], m[|Strip(s)|..];
    assert m == Strip(s) + r;
    assert s == l + m;
  }

  /** ... and that decomposition determines the stripped string. */
  lemma {:induction false} StripPadded(l: string, m: string, r: string)
    requires AllSpace(l) && AllSpace(r) && Trimmed(m) && m != ""
    ensures Strip(l + m + r) == m
  {
    var s := l + m + r;
    LStripPad(l, m + r);
    assert s == l + (m + r);
    RStripPad(m, r);
  }

  lemma LStripPad(l: string, m: string)
    requires AllSpace(l) && m != "" && !IsSpace(m[0])
    ensures LStrip(l + m) == m
  {
    var s, k := l + m, Leading(l + m);
    assert s[|l|] == m[0];
    assert forall i :: 0 <= i < k ==> IsSpace(s[..k][i]);
    assert k == |l|;
  }

  lemma RStripPad(m: string, r: string)
    requires AllSpace(r) && m != "" && !IsSpace(m[|m| - 1])
    ensures RStrip(m + r) == m
  {
    if r != "" {
      assert (m + r)[..|m + r| - 1] == m + r[..|r| - 1];
      RStripPad(m, r[..|r| - 1]);
    } else {
      assert m + r == m;
    }
  }

  lemma StripOfTrimmed(s: string)
    requires Trimmed(s)
    ensures Strip(s) == s
  {
    if s != "" {
      assert "" + s + "" == s;
      StripPadded("", s, "");
    }
  }

  // ----- lower case -----

  function LowerChar(c: char): char {
    if 'A' <= c <= 'Z' then (c as int + 32) as char else c
  }

  /** `s.lower()` for the ASCII letters; no other character lowers to a letter of the words compared with it. */
  function Lower(s: string): (r: string)
    ensures |r| == |s|
  {
    if s == "" then "" else [LowerChar(s[0])] + Lower(s[1..])
  }

  /** The letters A to Z become a to z, and every other character stays. */
  lemma {:induction false} LowerFolds(s: string, i: nat)
    requires i < |s|
    ensures Lower(s)[i] as int == if 'A' <= s[i] <= 'Z' then s[i] as int - 'A' as int + 'a' as int else s[i] as int
  {
    if i > 0 {
      LowerFolds(s[1..], i - 1);
    }
  }
}
