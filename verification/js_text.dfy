/**
 * The few JavaScript string operations the bot relies on: `startsWith`,
 * `indexOf` of one character, `substring` (which clamps its arguments and
 * swaps them when the start exceeds the end), `trim` and `trimEnd` (which strip
 * WhiteSpace and LineTerminator code points). Positions count characters
 * (Unicode scalar values), where JavaScript counts UTF-16 code units.
 */
module JsText {

  /** ECMAScript WhiteSpace and LineTerminator code points (ECMA-262, sections 12.2 and 12.3). */
  predicate IsWhitespace(c: char)
  {
    c == '\t' || c == '\n' || c == '\U{000B}' || c == '\U{000C}' || c == '\r' || c == ' '
    || c == '\U{00A0}' || c == '\U{1680}' || ('\U{2000}' <= c <= '\U{200A}')
    || c == '\U{2028}' || c == '\U{2029}' || c == '\U{202F}' || c == '\U{205F}'
    || c == '\U{3000}' || c == '\U{FEFF}'
  }

  predicate AllWhitespace(s: string)
  {
    forall i :: 0 <= i < |s| ==> IsWhitespace(s[i])
  }

  /** `s.startsWith(p)`. */
  predicate StartsWith(s: string, p: string)
  {
    |p| <= |s| && s[..|p|] == p
  }

  /** `s.indexOf(c)` for a one-character needle: the first position of c, or -1. */
  function IndexOf(s: string, c: char): (r: int)
    ensures r == -1 <==> c !in s
    ensures r != -1 ==> 0 <= r < |s| && s[r] == c
    ensures forall i :: 0 <= i < |s| && (r == -1 || i < r) ==> s[i] != c
  {
    if |s| == 0 then -1
    else if s[0] == c then 0
    else
      var k := IndexOf(s[1..], c);
      if k == -1 then -1 else k + 1
  }

  function Clamp(i: int, n: nat): (r: nat)
    ensures r <= n
  {
    if i < 0 then 0 else if i > n then n else i
  }

  /** `s.substring(start, end)`: both bounds clamped to [0, |s|], then swapped if start > end. */
  function Substring(s: string, start: int, end: int): (r: string)
  {
    var a, b := Clamp(start, |s|), Clamp(end, |s|);
    if a <= b then s[a..b] else s[b..a]
  }

  /** `s.trimEnd()`: the longest prefix of s that does not end in whitespace. */
  function TrimEnd(s: string): (r: string)
    ensures |r| <= |s| && r == s[..|r|]
    ensures AllWhitespace(s[|r|..])
    ensures r == [] || !IsWhitespace(r[|r| - 1])
  {
    if |s| == 0 then s
    else if IsWhitespace(s[|s| - 1]) then
      var r := TrimEnd(s[..|s| - 1]);
      assert s[|r|..] == s[..|s| - 1][|r|..] + [s[|s| - 1]];
      r
    else s
  }

  /** Removing leading whitespace: the longest suffix of s that does not start with whitespace. */
  function TrimStart(s: string): (r: string)
    ensures |r| <= |s| && r == s[|s| - |r|..]
    ensures AllWhitespace(s[..|s| - |r|])
    ensures r == [] || !IsWhitespace(r[0])
  {
    if |s| == 0 then s
    else if IsWhitespace(s[0]) then
      var r := TrimStart(s[1..]);
      assert s[..|s| - |r|] == [s[0]] + s[1..][..|s| - 1 - |r|];
      r
    else s
  }

  /** `s.trim()`: whitespace removed at both ends. */
  function Trim(s: string): (r: string)
    ensures exists i, j :: 0 <= i <= j <= |s| && r == s[i..j]
                           && AllWhitespace(s[..i]) && AllWhitespace(s[j..])
    ensures r == [] || (!IsWhitespace(r[0]) && !IsWhitespace(r[|r| - 1]))
    ensures r == [] <==> AllWhitespace(s)
  {
    var e := TrimEnd(s);
    var r := TrimStart(e);
    TrimShape(s, e, r);
    r
  }

  /** Trimming the end and then the start leaves a slice of s with only whitespace around it. */
  lemma TrimShape(s: string, e: string, r: string)
    requires |e| <= |s| && e == s[..|e|] && AllWhitespace(s[|e|..])
    requires e == [] || !IsWhitespace(e[|e| - 1])
    requires |r| <= |e| && r == e[|e| - |r|..] && AllWhitespace(e[..|e| - |r|])
    requires r == [] || !IsWhitespace(r[0])
    ensures 0 <= |e| - |r| <= |e| <= |s| && r == s[|e| - |r|..|e|]
    ensures AllWhitespace(s[..|e| - |r|]) && AllWhitespace(s[|e|..])
    ensures r == [] || (!IsWhitespace(r[0]) && !IsWhitespace(r[|r| - 1]))
    ensures r == [] <==> AllWhitespace(s)
  {
  }

  /** Removing trailing whitespace from a + b keeps all of a when b holds a non-whitespace character. */
  lemma {:induction false} TrimEndAppend(a: string, b: string, k: nat)
    requires k < |b| && !IsWhitespace(b[k])
    ensures TrimEnd(a + b) == a + TrimEnd(b)
  {
    if IsWhitespace(b[|b| - 1]) {
      var b' := b[..|b| - 1];
      assert (a + b)[..|a + b| - 1] == a + b';
      assert k < |b'| && b'[k] == b[k];
      TrimEndAppend(a, b', k);
    }
  }
}
