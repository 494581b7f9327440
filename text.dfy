/** The string operations of the JavaScript standard library that the
    endpoint uses: `trim`, `toLowerCase`, `endsWith`, the leading-slash
    `replace` and the joins that build a query string. */
module Text {

  /** ECMAScript's WhiteSpace and LineTerminator code points, the set that
      `String.prototype.trim` removes. */
  predicate IsWhitespace(c: char) {
    || c == '\t' || c == '\n' || c == '\U{000B}' || c == '\U{000C}' || c == '\r'
    || c == ' ' || c == '\U{00A0}' || c == '\U{1680}'
    || ('\U{2000}' <= c <= '\U{200A}')
    || c == '\U{2028}' || c == '\U{2029}' || c == '\U{202F}' || c == '\U{205F}'
    || c == '\U{3000}' || c == '\U{FEFF}'
  }

  /** The length of the longest prefix of `s` whose characters satisfy `drop`. */
  function LeadingRun(s: string, drop: char -> bool): (n: nat)
    ensures n <= |s|
    ensures forall i :: 0 <= i < n ==> drop(s[i])
    ensures n < |s| ==> !drop(s[n])
  {
    if |s| > 0 && drop(s[0]) then 1 + LeadingRun(s[1..], drop) else 0
  }

  /** The length of the longest suffix of `s` whose characters satisfy `drop`. */
  function TrailingRun(s: string, drop: char -> bool): (n: nat)
    ensures n <= |s|
    ensures forall i :: |s| - n <= i < |s| ==> drop(s[i])
    ensures n < |s| ==> !drop(s[|s| - 1 - n])
  {
    if |s| > 0 && drop(s[|s| - 1]) then 1 + TrailingRun(s[..|s| - 1], drop) else 0
  }

  /** The contract of `LeadingRun` determines it. */
  lemma {:induction false} LeadingRunUnique(s: string, drop: char -> bool, n: nat)
    requires n <= |s|
    requires forall i :: 0 <= i < n ==> drop(s[i])
    requires n < |s| ==> !drop(s[n])
    ensures LeadingRun(s, drop) == n
  {
    if n > 0 {
      LeadingRunUnique(s[1..], drop, n - 1);
    }
  }

  /** The contract of `TrailingRun` determines it. */
  lemma {:induction false} TrailingRunUnique(s: string, drop: char -> bool, n: nat)
    requires n <= |s|
    requires forall i :: |s| - n <= i < |s| ==> drop(s[i])
    requires n < |s| ==> !drop(s[|s| - 1 - n])
    ensures TrailingRun(s, drop) == n
  {
    if n > 0 {
      TrailingRunUnique(s[..|s| - 1], drop, n - 1);
    }
  }

  /** `s.trim()`: the infix of `s` left after removing whitespace at both ends. */
  function Trim(s: string): (r: string)
    ensures var a := LeadingRun(s, IsWhitespace);
      && a + |r| <= |s| && r == s[a..a + |r|]
      && (forall i :: 0 <= i < a ==> IsWhitespace(s[i]))
      && (forall i :: a + |r| <= i < |s| ==> IsWhitespace(s[i]))
    ensures r != [] ==> !IsWhitespace(r[0]) && !IsWhitespace(r[|r| - 1])
  {
    var a := LeadingRun(s, IsWhitespace);
    var b := |s| - TrailingRun(s[a..], IsWhitespace);
    s[a..b]
  }

  /** Trimming a trimmed string changes nothing. */
  lemma TrimIdempotent(s: string)
    ensures Trim(Trim(s)) == Trim(s)
  {
    var t := Trim(s);
    LeadingRunUnique(t, IsWhitespace, 0);
    TrailingRunUnique(t, IsWhitespace, 0);
    assert t[0..] == t;
  }

  /** A string that already has no surrounding whitespace, with `k` spaces
      on each side, trims back to itself. */
  lemma TrimPadded(s: string, k: nat)
    requires s != [] ==> !IsWhitespace(s[0]) && !IsWhitespace(s[|s| - 1])
    ensures Trim(Spaces(k) + s + Spaces(k)) == s
  {
    var sp := Spaces(k);
    assert IsWhitespace(' ');
    var p := sp + s + sp;
    if s == [] {
      assert forall i :: 0 <= i < |p| ==> p[i] == ' ';
      assert p + [] == p;
      LeadingRunConcat(p, [], IsWhitespace);
    } else {
      assert p == sp + (s + sp);
      LeadingRunConcat(sp, s + sp, IsWhitespace);
      assert p[k..] == s + sp;
      TrailingRunConcat(s, sp, IsWhitespace);
      assert (s + sp)[..|s|] == s;
    }
  }

  /** A run of `drop` characters followed by a string that does not start
      with one is exactly the leading run. */
  lemma LeadingRunConcat(w: string, t: string, drop: char -> bool)
    requires forall i :: 0 <= i < |w| ==> drop(w[i])
    requires t != [] ==> !drop(t[0])
    ensures LeadingRun(w + t, drop) == |w|
  {
    assert forall i :: 0 <= i < |w| ==> (w + t)[i] == w[i];
    LeadingRunUnique(w + t, drop, |w|);
  }

  /** A string that does not end with a `drop` character followed by a run
      of them has exactly that run as its trailing run. */
  lemma TrailingRunConcat(t: string, w: string, drop: char -> bool)
    requires forall i :: 0 <= i < |w| ==> drop(w[i])
    requires t != [] ==> !drop(t[|t| - 1])
    ensures TrailingRun(t + w, drop) == |w|
  {
    assert forall i :: |t| <= i < |t + w| ==> (t + w)[i] == w[i - |t|];
    TrailingRunUnique(t + w, drop, |w|);
  }

  function Spaces(k: nat): (r: string)
    ensures |r| == k && forall i :: 0 <= i < k ==> r[i] == ' '
  {
    if k == 0 then "" else " " + Spaces(k - 1)
  }

  /** `path.replace(/^\/+/, "")`: the path without its leading slashes. */
  function StripLeadingSlashes(path: string): (r: string)
    ensures |r| <= |path| && r == path[|path| - |r|..]
    ensures forall i :: 0 <= i < |path| - |r| ==> path[i] == '/'
    ensures r != [] ==> r[0] != '/'
  {
    if |path| > 0 && path[0] == '/' then StripLeadingSlashes(path[1..]) else path
  }

  /** `toLowerCase` on one character, restricted to the ASCII letters. */
  function LowerChar(c: char): char {
    if 'A' <= c <= 'Z' then (c as int + 32) as char else c
  }

  predicate IsLowerCase(s: string) {
    forall i :: 0 <= i < |s| ==> !('A' <= s[i] <= 'Z')
  }

  /** `s.toLowerCase()` for ASCII letters: same length, each upper-case
      letter replaced by its lower-case letter, no upper-case letter left. */
  function Lower(s: string): (r: string)
    ensures |r| == |s|
    ensures forall i :: 0 <= i < |s| ==> r[i] == LowerChar(s[i])
    ensures IsLowerCase(r)
  {
    if s == [] then "" else [LowerChar(s[0])] + Lower(s[1..])
  }

  /** Lower-casing is idempotent. */
  lemma LowerIdempotent(s: string)
    ensures Lower(Lower(s)) == Lower(s)
  {
    var t := Lower(s);
    assert forall i :: 0 <= i < |t| ==> LowerChar(t[i]) == t[i];
  }

  /** `s.endsWith(suffix)`. */
  predicate EndsWith(s: string, suffix: string) {
    |suffix| <= |s| && s[|s| - |suffix|..] == suffix
  }

  predicate StartsWith(s: string, prefix: string) {
    |prefix| <= |s| && s[..|prefix|] == prefix
  }

  lemma StartsWithConcat(a: string, b: string)
    ensures StartsWith(a + b, a)
  {
    assert (a + b)[..|a|] == a;
  }
}
