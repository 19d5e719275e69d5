/**
 * The PHP string built-ins the meal handlers rely on: `trim`, `strtolower`,
 * `empty` on a string, and the byte-wise `strcmp` used for display order.
 * Strings are sequences of characters; comparing characters by code point is
 * the same as comparing their UTF-8 encodings byte by byte.
 */
module PhpStrings {

  /** The characters `trim` strips by default: space, tab, newline, carriage return, NUL, vertical tab. */
  predicate IsTrimChar(c: char) {
    c == ' ' || c == '\t' || c == '\n' || c == '\r' || c == '\0' || c == '\U{000B}'
  }

  /** How many trim characters `s` starts with. */
  function LeadingTrimCount(s: string): (n: nat)
    ensures n <= |s|
    ensures forall i :: 0 <= i < n ==> IsTrimChar(s[i])
    ensures n < |s| ==> !IsTrimChar(s[n])
  {
    if s != [] && IsTrimChar(s[0]) then 1 + LeadingTrimCount(s[1..]) else 0
  }

  /** How many trim characters `s` ends with. */
  function TrailingTrimCount(s: string): (n: nat)
    ensures n <= |s|
    ensures forall i :: |s| - n <= i < |s| ==> IsTrimChar(s[i])
    ensures n < |s| ==> !IsTrimChar(s[|s| - n - 1])
  {
    if s != [] && IsTrimChar(s[|s| - 1]) then 1 + TrailingTrimCount(s[..|s| - 1]) else 0
  }

  /**
   * `trim`: `s` with its leading and trailing trim characters removed; what
   * remains is an infix of `s` that neither starts nor ends with one.
   */
  function Trim(s: string): (r: string)
    ensures var a := LeadingTrimCount(s);
              a + |r| <= |s| && r == s[a..a + |r|]
              && (forall i :: 0 <= i < a ==> IsTrimChar(s[i]))
              && (forall i :: a + |r| <= i < |s| ==> IsTrimChar(s[i]))
    ensures r != [] ==> !IsTrimChar(r[0]) && !IsTrimChar(r[|r| - 1])
  {
    var a := LeadingTrimCount(s);
    var b := TrailingTrimCount(s[a..]);
    assert forall i :: a + (|s| - a - b) <= i < |s| ==> s[i] == s[a..][i - a];
    s[a..|s| - b]
  }

  /** Trimming a trimmed string changes nothing. */
  lemma TrimIdempotent(s: string)
    ensures Trim(Trim(s)) == Trim(s)
  {
    var r := Trim(s);
    if r != [] {
      assert LeadingTrimCount(r) == 0;
      assert r[0..] == r;
      assert TrailingTrimCount(r) == 0;
    }
  }

  /** PHP's `empty` on a string: true for the empty string and for "0". */
  predicate IsEmptyString(s: string): (r: bool)
    ensures r <==> |s| <= 1 && (|s| == 1 ==> s[0] == '0')
  {
    s == "" || s == "0"
  }

  /** `strtolower` as of PHP 8.2: only the ASCII letters A-Z change. */
  function LowerChar(c: char): (d: char)
  {
    if 'A' <= c <= 'Z' then (c as int + 32) as char else c
  }

  /** `strtolower`, character by character. */
  function Lower(s: string): (r: string)
    ensures |r| == |s|
    ensures forall i :: 0 <= i < |s| ==> r[i] == LowerChar(s[i])
  {
    if s == [] then [] else [LowerChar(s[0])] + Lower(s[1..])
  }

  /** `strcmp`: the sign of the lexicographic comparison by character code, a proper prefix being smaller. */
  function StrCmp(a: string, b: string): (r: int)
    ensures -1 <= r <= 1
    ensures r == 0 <==> a == b
  {
    if a == [] then (if b == [] then 0 else -1)
    else if b == [] then 1
    else if a[0] < b[0] then -1
    else if a[0] > b[0] then 1
    else
      var r := StrCmp(a[1..], b[1..]);
      assert a == [a[0]] + a[1..] && b == [b[0]] + b[1..];
      r
  }

  /** Swapping the arguments of `strcmp` flips the sign. */
  lemma {:induction false} StrCmpAntisymmetric(a: string, b: string)
    ensures StrCmp(b, a) == -StrCmp(a, b)
  {
    if a != [] && b != [] && a[0] == b[0] {
      StrCmpAntisymmetric(a[1..], b[1..]);
    }
  }

  /** "Sorts no later than" under `strcmp` is transitive. */
  lemma {:induction false} StrCmpTransitive(a: string, b: string, c: string)
    requires StrCmp(a, b) <= 0 && StrCmp(b, c) <= 0
    ensures StrCmp(a, c) <= 0
  {
    if a != [] && b != [] && c != [] && a[0] == b[0] == c[0] {
      StrCmpTransitive(a[1..], b[1..], c[1..]);
    }
  }
}
