/**
 * The three string operations the request checks rely on: `str.strip()` with no argument
 * and `str.startswith(prefix)` as Python defines them, and `str.lower()` on ASCII letters.
 */
module Text {

  /** The characters for which Python's `str.isspace()` holds: what `str.strip()` removes. */
  const Whitespace: set<char> := {
    '\t', '\n', '\U{B}', '\U{C}', '\r',                    // tab, line feed, vertical tab, form feed, carriage return
    '\U{1C}', '\U{1D}', '\U{1E}', '\U{1F}', ' ',              // the four information separators and space
    '\U{85}', '\U{A0}', '\U{1680}',
    '\U{2000}', '\U{2001}', '\U{2002}', '\U{2003}', '\U{2004}', '\U{2005}',
    '\U{2006}', '\U{2007}', '\U{2008}', '\U{2009}', '\U{200A}',
    '\U{2028}', '\U{2029}', '\U{202F}', '\U{205F}', '\U{3000}'
  }

  predicate IsSpace(c: char) {
    c in Whitespace
  }

  /** Every character of `s` is whitespace (vacuously true of ""). */
  predicate AllSpace(s: string) {
    forall i :: 0 <= i < |s| ==> IsSpace(s[i])
  }

  /** The number of whitespace characters `s` starts with. */
  function LeadingSpace(s: string): (n: nat)
    ensures n <= |s|
    ensures forall i :: 0 <= i < n ==> IsSpace(s[i])
    ensures n == |s| || !IsSpace(s[n])
  {
    if |s| > 0 && IsSpace(s[0]) then 1 + LeadingSpace(s[1..]) else 0
  }

  /** The number of whitespace characters `s` ends with. */
  function TrailingSpace(s: string): (n: nat)
    ensures n <= |s|
    ensures forall i :: |s| - n <= i < |s| ==> IsSpace(s[i])
    ensures n == |s| || !IsSpace(s[|s| - 1 - n])
  {
    if |s| > 0 && IsSpace(s[|s| - 1]) then 1 + TrailingSpace(s[..|s| - 1]) else 0
  }

  /** Python's `s.lstrip()`. */
  function TrimStart(s: string): string {
    s[LeadingSpace(s)..]
  }

  /** Python's `s.rstrip()`. */
  function TrimEnd(s: string): string {
    s[..|s| - TrailingSpace(s)]
  }

  /** Python's `s.strip()`: the text between the leading and the trailing whitespace. */
  function Strip(s: string): (r: string)
    ensures |r| <= |s|
    ensures r == [] || (!IsSpace(r[0]) && !IsSpace(r[|r| - 1]))
    ensures r == [] <==> AllSpace(s)
  {
    var t := TrimStart(s);
    var r := TrimEnd(t);
    assert r != [] ==> r[0] == t[0];
    r
  }

  /** Python's `str.lower()` on one character; only the ASCII letters A-Z are mapped. */
  function LowerChar(c: char): (d: char)
    ensures IsSpace(d) == IsSpace(c)
    ensures !('A' <= d <= 'Z')
  {
    if 'A' <= c <= 'Z' then (c as int + 32) as char else c
  }

  /** Python's `s.lower()`, character by character. */
  function Lower(s: string): (r: string)
    ensures |r| == |s|
    ensures forall i :: 0 <= i < |s| ==> r[i] == LowerChar(s[i])
  {
    if s == [] then [] else [LowerChar(s[0])] + Lower(s[1..])
  }

  /** Python's `s.startswith(prefix)`. */
  predicate StartsWith(s: string, prefix: string) {
    |prefix| <= |s| && s[..|prefix|] == prefix
  }

  /** Surrounding whitespace, whatever it is, is exactly what `Strip` removes. */
  lemma StripUnique(a: string, m: string, b: string)
    requires AllSpace(a) && AllSpace(b)
    requires m == [] || (!IsSpace(m[0]) && !IsSpace(m[|m| - 1]))
    ensures Strip(a + m + b) == m
  {
    var s := a + m + b;
    if m == [] {
      assert AllSpace(s);
    } else {
      assert s[|a|] == m[0];
      assert LeadingSpace(s) == |a|;
      var t := s[|a|..];
      assert t == m + b;
      assert t[|m| - 1] == m[|m| - 1];
      assert TrailingSpace(t) == |b|;
      assert t[..|m|] == m;
    }
  }

  /** Every string is its stripped text surrounded by whitespace. */
  lemma StripSplits(s: string) returns (a: string, b: string)
    ensures AllSpace(a) && AllSpace(b)
    ensures s == a + Strip(s) + b
  {
    var i := LeadingSpace(s);
    var t := s[i..];
    var j := |t| - TrailingSpace(t);
    a := s[..i];
    b := t[j..];
    assert s == a + t[..j] + b;
  }

  /** Lower-casing and stripping commute, since lower-casing keeps whitespace as whitespace. */
  lemma LowerStripCommute(s: string)
    ensures Lower(Strip(s)) == Strip(Lower(s))
  {
    var a, b := StripSplits(s);
    var m := Strip(s);
    assert Lower(s) == Lower(a) + Lower(m) + Lower(b) by {
      LowerAppend(a, m);
      LowerAppend(a + m, b);
    }
    LowerKeepsSpace(a);
    LowerKeepsSpace(b);
    assert Lower(m) == [] || (!IsSpace(Lower(m)[0]) && !IsSpace(Lower(m)[|m| - 1]));
    StripUnique(Lower(a), Lower(m), Lower(b));
  }

  /** Lower-casing whitespace gives whitespace. */
  lemma LowerKeepsSpace(x: string)
    requires AllSpace(x)
    ensures AllSpace(Lower(x))
  {
  }

  /** `Lower` works on each part of a concatenation separately. */
  lemma LowerAppend(x: string, y: string)
    ensures Lower(x + y) == Lower(x) + Lower(y)
  {
    assert forall i :: 0 <= i < |x + y| ==> Lower(x + y)[i] == (Lower(x) + Lower(y))[i];
  }
}
