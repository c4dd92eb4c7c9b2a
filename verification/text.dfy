/**
 * The JavaScript string operations the generator relies on: template
 * concatenation, `Array.prototype.join`, number interpolation and
 * `String.prototype.trim`. Strings are `seq<char>`, a sequence of Unicode
 * scalar values; JavaScript's UTF-16 code units (lone surrogates, astral
 * characters as two units) are not modelled.
 */
module Text {

  /** `needle` sits inside `hay` starting at offset `k`. */
  predicate OccursAt(needle: string, hay: string, k: int) {
    0 <= k <= |hay| - |needle| && hay[k..k + |needle|] == needle
  }

  /** `needle` appears somewhere inside `hay` as a contiguous block. */
  predicate Occurs(needle: string, hay: string) {
    exists k | 0 <= k <= |hay| :: OccursAt(needle, hay, k)
  }

  predicate IsSuffix(suffix: string, s: string) {
    |suffix| <= |s| && s[|s| - |suffix|..] == suffix
  }

  lemma OccursInMiddle(a: string, n: string, b: string)
    ensures Occurs(n, a + n + b)
  {
    var h := a + n + b;
    assert h[|a|..|a| + |n|] == n;
    assert OccursAt(n, h, |a|);
  }

  lemma OccursWiden(n: string, h: string, a: string)
    requires Occurs(n, h)
    ensures Occurs(n, a + h)
  {
    var k :| 0 <= k <= |h| && OccursAt(n, h, k);
    assert k + |n| <= |h| && h[k..k + |n|] == n;
    assert (a + h)[|a| + k..|a| + k + |n|] == n;
    assert OccursAt(n, a + h, |a| + k);
  }

  // ---------------------------------------------------------------------------
  // Template concatenation
  // ---------------------------------------------------------------------------

  /** The pieces of a template literal, glued together left to right. */
  function Concat(pieces: seq<string>): (r: string)
    ensures |pieces| > 0 ==> pieces[0] <= r
    ensures |pieces| > 0 ==> IsSuffix(pieces[|pieces| - 1], r)
  {
    if |pieces| == 0 then "" else pieces[0] + Concat(pieces[1..])
  }

  /** Gluing the pieces from `k` on: piece `k`, then the rest. */
  lemma ConcatUnfold(pieces: seq<string>, k: nat)
    requires k < |pieces|
    ensures Concat(pieces[k..]) == pieces[k] + Concat(pieces[k + 1..])
    ensures k == |pieces| - 1 ==> Concat(pieces[k..]) == pieces[k]
  {
    assert pieces[k..][1..] == pieces[k + 1..];
    if k == |pieces| - 1 {
      assert pieces[k + 1..] == [];
    }
  }

  /** Every piece of a template appears verbatim in the result. */
  lemma {:induction false} ConcatContainsPiece(pieces: seq<string>, j: nat)
    requires j < |pieces|
    ensures Occurs(pieces[j], Concat(pieces))
    decreases j
  {
    if j == 0 {
      OccursInMiddle("", pieces[0], Concat(pieces[1..]));
      assert "" + pieces[0] + Concat(pieces[1..]) == Concat(pieces);
    } else {
      ConcatContainsPiece(pieces[1..], j - 1);
      assert pieces[1..][j - 1] == pieces[j];
      OccursWiden(pieces[j], Concat(pieces[1..]), pieces[0]);
    }
  }

  // ---------------------------------------------------------------------------
  // Array.prototype.join
  // ---------------------------------------------------------------------------

  /** `parts.join(sep)`: the parts in order with `sep` between neighbours; `[]` joins to "". */
  function Join(parts: seq<string>, sep: string): (r: string)
    ensures |parts| > 0 ==> parts[0] <= r
    ensures |parts| > 0 ==> IsSuffix(parts[|parts| - 1], r)
  {
    if |parts| == 0 then ""
    else if |parts| == 1 then parts[0]
    else parts[0] + sep + Join(parts[1..], sep)
  }

  /**
   * Join read from the other end, as JavaScript's left-to-right accumulation
   * describes it: joining one more part appends the separator and that part.
   */
  lemma {:induction false} JoinSnoc(parts: seq<string>, p: string, sep: string)
    requires |parts| > 0
    ensures Join(parts + [p], sep) == Join(parts, sep) + sep + p
    decreases |parts|
  {
    if |parts| == 1 {
      assert parts + [p] == [parts[0], p];
      assert [parts[0], p][1..] == [p];
    } else {
      assert (parts + [p])[1..] == parts[1..] + [p];
      JoinSnoc(parts[1..], p, sep);
    }
  }

  /** Every part appears verbatim in the joined string. */
  lemma {:induction false} JoinContainsPart(parts: seq<string>, sep: string, j: nat)
    requires j < |parts|
    ensures Occurs(parts[j], Join(parts, sep))
    decreases j
  {
    if |parts| == 1 {
      OccursInMiddle("", parts[0], "");
      assert "" + parts[0] + "" == parts[0];
    } else if j == 0 {
      OccursInMiddle("", parts[0], sep + Join(parts[1..], sep));
      assert "" + parts[0] + (sep + Join(parts[1..], sep)) == Join(parts, sep);
    } else {
      JoinContainsPart(parts[1..], sep, j - 1);
      assert parts[1..][j - 1] == parts[j];
      OccursWiden(parts[j], Join(parts[1..], sep), parts[0] + sep);
      assert (parts[0] + sep) + Join(parts[1..], sep) == Join(parts, sep);
    }
  }

  // ---------------------------------------------------------------------------
  // Number interpolation
  // ---------------------------------------------------------------------------

  predicate IsDigit(c: char) {
    '0' <= c <= '9'
  }

  function DigitChar(d: nat): (c: char)
    requires d < 10
    ensures IsDigit(c)
  {
    ['0', '1', '2', '3', '4', '5', '6', '7', '8', '9'][d]
  }

  function DigitValue(c: char): (d: nat)
    requires IsDigit(c)
    ensures d < 10 && DigitChar(d) == c
  {
    if c == '0' then 0 else if c == '1' then 1 else if c == '2' then 2
    else if c == '3' then 3 else if c == '4' then 4 else if c == '5' then 5
    else if c == '6' then 6 else if c == '7' then 7 else if c == '8' then 8 else 9
  }

  /** `${n}` for a non-negative integer: its decimal digits, no leading zero. */
  function DecimalString(n: nat): (r: string)
    ensures |r| >= 1
    ensures forall i :: 0 <= i < |r| ==> IsDigit(r[i])
    ensures |r| > 1 ==> r[0] != '0'
    decreases n
  {
    if n < 10 then [DigitChar(n)] else DecimalString(n / 10) + [DigitChar(n % 10)]
  }

  /** Reads a string of digits back as the number it spells. */
  function ParseDecimal(s: string): nat
    requires forall i :: 0 <= i < |s| ==> IsDigit(s[i])
  {
    if |s| == 0 then 0 else ParseDecimal(s[..|s| - 1]) * 10 + DigitValue(s[|s| - 1])
  }

  /** The interpolated number reads back as itself. */
  lemma {:induction false} DecimalStringRoundTrip(n: nat)
    ensures ParseDecimal(DecimalString(n)) == n
    decreases n
  {
    var r := DecimalString(n);
    if n < 10 {
      assert r[..0] == [];
    } else {
      DecimalStringRoundTrip(n / 10);
      assert r[..|r| - 1] == DecimalString(n / 10);
    }
  }

  /** Distinct numbers interpolate to distinct strings. */
  lemma DecimalStringInjective(m: nat, n: nat)
    requires DecimalString(m) == DecimalString(n)
    ensures m == n
  {
    DecimalStringRoundTrip(m);
    DecimalStringRoundTrip(n);
  }

  // ---------------------------------------------------------------------------
  // String.prototype.trim
  // ---------------------------------------------------------------------------

  /**
   * The code units `trim` removes: ECMAScript WhiteSpace (tab, vertical tab,
   * form feed, U+FEFF and the space separators of category Zs) and
   * LineTerminator (LF, CR, U+2028, U+2029).
   */
  predicate IsJsWhitespace(c: char) {
    || c == '\t' || c == '\U{000B}' || c == '\U{000C}' || c == ' ' || c == '\U{00A0}'
    || c == '\U{FEFF}' || c == '\U{1680}' || ('\U{2000}' <= c <= '\U{200A}')
    || c == '\U{202F}' || c == '\U{205F}' || c == '\U{3000}'
    || c == '\n' || c == '\r' || c == '\U{2028}' || c == '\U{2029}'
  }

  /** Every code unit of `s` is whitespace (the empty string included). */
  predicate Blank(s: string) {
    forall i :: 0 <= i < |s| ==> IsJsWhitespace(s[i])
  }

  /** Drops the longest whitespace prefix. */
  function TrimStart(s: string): (r: string)
    ensures IsSuffix(r, s)
    ensures Blank(s[..|s| - |r|])
    ensures |r| > 0 ==> !IsJsWhitespace(r[0])
    decreases |s|
  {
    if |s| > 0 && IsJsWhitespace(s[0]) then
      var r := TrimStart(s[1..]);
      assert s[..|s| - |r|] == [s[0]] + s[1..][..|s| - 1 - |r|];
      r
    else s
  }

  /** Drops the longest whitespace suffix. */
  function TrimEnd(s: string): (r: string)
    ensures r <= s
    ensures Blank(s[|r|..])
    ensures |r| > 0 ==> !IsJsWhitespace(r[|r| - 1])
    decreases |s|
  {
    if |s| > 0 && IsJsWhitespace(s[|s| - 1]) then
      var r := TrimEnd(s[..|s| - 1]);
      assert s[|r|..] == s[..|s| - 1][|r|..] + [s[|s| - 1]];
      r
    else s
  }

  /** `s.trim()`. */
  function Trim(s: string): string {
    TrimEnd(TrimStart(s))
  }

  /** `trim` yields the empty string exactly for blank input. */
  lemma TrimEmptyIffBlank(s: string)
    ensures Trim(s) == "" <==> Blank(s)
  {
    var a := TrimStart(s);
    var b := TrimEnd(a);
    if b == "" {
      assert Blank(a) by { assert a[|b|..] == a; }
      assert s == s[..|s| - |a|] + a;
      assert forall i :: 0 <= i < |s| ==> s[i] == (s[..|s| - |a|] + a)[i];
    } else {
      assert b[0] == a[0];
      var k := |s| - |a|;
      assert s[k] == a[0];
      assert !Blank(s) by { assert !IsJsWhitespace(s[k]); }
    }
  }
}
