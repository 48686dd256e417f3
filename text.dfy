/**
 * The JavaScript string built-ins the components rely on, over `seq<char>`:
 * `String.prototype.trim`, `toLowerCase`, `includes`, `Array.prototype.join`
 * and the decimal rendering of a non-negative integer inside a template literal.
 */
module Text {

  /** The code points JavaScript's `trim` strips: WhiteSpace and LineTerminator. */
  predicate IsJsWhitespace(c: char) {
    c == '\t' || c == '\n' || c == '\U{000B}' || c == '\U{000C}' || c == '\r' || c == ' '
    || c == '\U{00A0}' || c == '\U{1680}' || ('\U{2000}' <= c <= '\U{200A}')
    || c == '\U{2028}' || c == '\U{2029}' || c == '\U{202F}' || c == '\U{205F}'
    || c == '\U{3000}' || c == '\U{FEFF}'
  }

  /** Every character of `s` is whitespace (the empty string included). */
  predicate IsBlank(s: string) {
    forall i :: 0 <= i < |s| ==> IsJsWhitespace(s[i])
  }

  /** The index of the first non-whitespace character of `s` at or after `i` (`|s|` when there is none). */
  function SkipWhitespace(s: string, i: nat): (k: nat)
    requires i <= |s|
    ensures i <= k <= |s|
    ensures forall j :: i <= j < k ==> IsJsWhitespace(s[j])
    ensures k < |s| ==> !IsJsWhitespace(s[k])
    decreases |s| - i
  {
    if i == |s| || !IsJsWhitespace(s[i]) then i else SkipWhitespace(s, i + 1)
  }

  /** The end of `s[lo..hi]` once trailing whitespace is dropped. */
  function DropTrailing(s: string, lo: nat, hi: nat): (e: nat)
    requires lo <= hi <= |s|
    ensures lo <= e <= hi
    ensures forall j :: e <= j < hi ==> IsJsWhitespace(s[j])
    ensures e > lo ==> !IsJsWhitespace(s[e - 1])
  {
    if hi == lo || !IsJsWhitespace(s[hi - 1]) then hi else DropTrailing(s, lo, hi - 1)
  }

  /**
   * `s.trim()`: the infix of `s` left once whitespace is cut from both ends.
   * Only whitespace is cut, the result neither starts nor ends with
   * whitespace, and nothing is left exactly when `s` is blank.
   */
  function Trim(s: string): (r: string)
    ensures exists k :: Trimmed(s, r, k)
    ensures r != [] ==> !IsJsWhitespace(r[0]) && !IsJsWhitespace(r[|r| - 1])
    ensures r == [] <==> IsBlank(s)
  {
    var k := SkipWhitespace(s, 0);
    var e := DropTrailing(s, k, |s|);
    assert Trimmed(s, s[k..e], k);
    s[k..e]
  }

  /** `r` is `s[k..k + |r|]` and every character of `s` outside it is whitespace. */
  predicate Trimmed(s: string, r: string, k: int) {
    && 0 <= k && k + |r| <= |s| && r == s[k..k + |r|]
    && (forall i :: 0 <= i < k ==> IsJsWhitespace(s[i]))
    && (forall i :: k + |r| <= i < |s| ==> IsJsWhitespace(s[i]))
  }

  /** `c.toLowerCase()` on the ASCII letters; every other character is kept. */
  function LowerChar(c: char): char {
    if 'A' <= c <= 'Z' then (c as int + 32) as char else c
  }

  /** `s.toLowerCase()`, character by character. */
  function ToLower(s: string): (r: string)
    ensures |r| == |s|
    ensures forall i :: 0 <= i < |s| ==> r[i] == LowerChar(s[i])
  {
    if s == [] then [] else [LowerChar(s[0])] + ToLower(s[1..])
  }

  /** `sub` occurs in `s` starting at index `i`. */
  predicate OccursAt(s: string, sub: string, i: int) {
    0 <= i && i + |sub| <= |s| && s[i..i + |sub|] == sub
  }

  /** `sub` occurs in `s` at index `i` or later, trying each index from the left. */
  predicate ContainsFrom(s: string, sub: string, i: nat)
    decreases |s| - i
  {
    i + |sub| <= |s| && (s[i..i + |sub|] == sub || ContainsFrom(s, sub, i + 1))
  }

  /** `s.includes(sub)`. */
  predicate Contains(s: string, sub: string) {
    ContainsFrom(s, sub, 0)
  }

  /** The scan from `i` succeeds exactly when `sub` occurs at some index from `i` on. */
  lemma {:induction false} ContainsFromIff(s: string, sub: string, i: nat)
    ensures ContainsFrom(s, sub, i) <==> exists j :: i <= j && OccursAt(s, sub, j)
    decreases |s| - i
  {
    if i + |sub| <= |s| {
      if s[i..i + |sub|] == sub {
        assert OccursAt(s, sub, i);
      } else {
        ContainsFromIff(s, sub, i + 1);
        if j :| i <= j && OccursAt(s, sub, j) {
          assert j != i;
          assert i + 1 <= j;
        }
      }
    }
  }

  /** `includes` holds exactly when `sub` occurs at some index of `s`. */
  lemma ContainsIffOccurs(s: string, sub: string)
    ensures Contains(s, sub) <==> exists i :: OccursAt(s, sub, i)
  {
    ContainsFromIff(s, sub, 0);
  }

  /** A piece of `s` that contains `sub` makes `s` contain it too. */
  lemma ContainsInfix(s: string, k: nat, piece: string, sub: string)
    requires k + |piece| <= |s| && s[k..k + |piece|] == piece
    requires Contains(piece, sub)
    ensures Contains(s, sub)
  {
    ContainsIffOccurs(piece, sub);
    var i :| OccursAt(piece, sub, i);
    forall j | 0 <= j < |sub|
      ensures s[k + i + j] == sub[j]
    {
      assert piece[i + j] == sub[j];
      assert s[k + (i + j)] == piece[i + j];
    }
    assert s[k + i..k + i + |sub|] == sub;
    assert OccursAt(s, sub, k + i);
    ContainsIffOccurs(s, sub);
  }

  /** Every string contains itself. */
  lemma ContainsSelf(s: string)
    ensures Contains(s, s)
  {
    assert s[..|s|] == s;
  }

  predicate IsDigit(c: char) {
    '0' <= c <= '9'
  }

  function DigitChar(d: nat): (c: char)
    requires d < 10
    ensures IsDigit(c)
  {
    ('0' as int + d) as char
  }

  /** The numeric value of a decimal string, most significant digit first. */
  function DecimalValue(s: string): int
  {
    if s == [] then 0
    else 10 * DecimalValue(s[..|s| - 1]) + (s[|s| - 1] as int - '0' as int)
  }

  /** A non-negative integer as JavaScript writes it in a template literal: decimal, no leading zero. */
  function NatToString(n: nat): (r: string)
    ensures r != []
    ensures forall i :: 0 <= i < |r| ==> IsDigit(r[i])
    ensures |r| > 1 ==> r[0] != '0'
  {
    if n < 10 then [DigitChar(n)] else NatToString(n / 10) + [DigitChar(n % 10)]
  }

  /** Reading the digits back gives the number. */
  lemma {:induction false} NatToStringValue(n: nat)
    ensures DecimalValue(NatToString(n)) == n
  {
    var r := NatToString(n);
    if n >= 10 {
      assert r[..|r| - 1] == NatToString(n / 10);
      NatToStringValue(n / 10);
    }
  }

  /** `parts.join(sep)`. */
  function Join(parts: seq<string>, sep: string): (r: string)
    ensures parts != [] ==> |parts[0]| <= |r| && r[..|parts[0]|] == parts[0]
  {
    if parts == [] then []
    else if |parts| == 1 then parts[0]
    else parts[0] + sep + Join(parts[1..], sep)
  }

  /** A non-empty join ends the way its last part ends. */
  lemma {:induction false} JoinEndsWithLast(parts: seq<string>, sep: string)
    requires parts != [] && parts[|parts| - 1] != []
    ensures var r := Join(parts, sep); r != [] && r[|r| - 1] == parts[|parts| - 1][|parts[|parts| - 1]| - 1]
  {
    if |parts| > 1 {
      JoinEndsWithLast(parts[1..], sep);
    }
  }

  /** Every part occurs in the joined string, at a known offset. */
  lemma {:induction false} JoinContainsPart(parts: seq<string>, sep: string, j: nat)
    requires j < |parts|
    ensures exists k :: OccursAt(Join(parts, sep), parts[j], k)
  {
    var r := Join(parts, sep);
    if j == 0 {
      assert OccursAt(r, parts[0], 0);
    } else {
      JoinContainsPart(parts[1..], sep, j - 1);
      var k :| OccursAt(Join(parts[1..], sep), parts[1..][j - 1], k);
      var off := |parts[0]| + |sep|;
      assert r[off + k..off + k + |parts[j]|] == Join(parts[1..], sep)[k..k + |parts[j]|];
      assert OccursAt(r, parts[j], off + k);
    }
  }
}
