/**
 * The few JavaScript string operations the client relies on: `trim`, prefix and
 * infix tests, and the first and last position of a character.
 */
module JsString {
  import opened Optional

  /** ECMAScript WhiteSpace and LineTerminator code points: what `String.prototype.trim` strips. */
  predicate IsWhiteSpace(c: char) {
    || c == '\t' || c == '\n' || c == '\U{000B}' || c == '\U{000C}' || c == '\r' || c == ' '
    || c == '\U{00A0}' || c == '\U{1680}' || ('\U{2000}' <= c <= '\U{200A}')
    || c == '\U{2028}' || c == '\U{2029}' || c == '\U{202F}' || c == '\U{205F}'
    || c == '\U{3000}' || c == '\U{FEFF}'
  }

  /** Every character is white space (the empty string included). */
  predicate Blank(s: string) {
    forall i {:trigger IsWhiteSpace(s[i])} :: 0 <= i < |s| ==> IsWhiteSpace(s[i])
  }

  /** Neither end of `s` is white space: `trim` would leave it alone. */
  predicate Trimmed(s: string) {
    s == [] || (!IsWhiteSpace(s[0]) && !IsWhiteSpace(s[|s| - 1]))
  }

  predicate StartsWith(s: string, prefix: string) {
    |prefix| <= |s| && s[..|prefix|] == prefix
  }

  predicate EndsWith(s: string, suffix: string) {
    |suffix| <= |s| && s[|s| - |suffix|..] == suffix
  }

  /** `s` with its leading white space removed. */
  function TrimStart(s: string): (r: string)
    ensures |r| <= |s| && r == s[|s| - |r|..]
    ensures Blank(s[..|s| - |r|])
    ensures r == [] || !IsWhiteSpace(r[0])
  {
    if |s| > 0 && IsWhiteSpace(s[0]) then
      var r := TrimStart(s[1..]);
      assert s[..|s| - |r|] == [s[0]] + s[1..][..|s| - 1 - |r|];
      r
    else
      s
  }

  /** `s` with its trailing white space removed. */
  function TrimEnd(s: string): (r: string)
    ensures |r| <= |s| && r == s[..|r|]
    ensures Blank(s[|r|..])
    ensures r == [] || !IsWhiteSpace(r[|r| - 1])
  {
    if |s| > 0 && IsWhiteSpace(s[|s| - 1]) then
      var r := TrimEnd(s[..|s| - 1]);
      assert s[|r|..] == s[..|s| - 1][|r|..] + [s[|s| - 1]];
      r
    else
      s
  }

  /** How many leading characters `trim` drops. */
  function Lead(s: string): nat {
    |s| - |TrimStart(s)|
  }

  /** `String.prototype.trim`: the slice of `s` left after dropping white space at both ends. */
  function Trim(s: string): (r: string)
    ensures Lead(s) + |r| <= |s| && r == s[Lead(s)..Lead(s) + |r|]
    ensures Blank(s[..Lead(s)]) && Blank(s[Lead(s) + |r|..])
    ensures Trimmed(r)
    ensures r == [] <==> Blank(s)
  {
    var t := TrimStart(s);
    var r := TrimEnd(t);
    TrimShape(s, Lead(s), t, r);
    r
  }

  /**
   * Dropping a blank prefix and then a blank suffix leaves a trimmed slice, which is
   * empty exactly when the whole text is blank.
   */
  lemma TrimShape(s: string, a: nat, t: string, r: string)
    requires a + |t| == |s| && t == s[a..] && Blank(s[..a]) && (t == [] || !IsWhiteSpace(t[0]))
    requires |r| <= |t| && r == t[..|r|] && Blank(t[|r|..]) && (r == [] || !IsWhiteSpace(r[|r| - 1]))
    ensures a + |r| <= |s| && r == s[a..a + |r|]
    ensures Blank(s[a + |r|..])
    ensures Trimmed(r)
    ensures r == [] <==> Blank(s)
  {
    assert s[a + |r|..] == t[|r|..];
    BlankSplit(s, a);
    BlankSplit(t, |r|);
    assert r != [] ==> r[0] == t[0];
  }

  /** A text is blank exactly when both parts of any split of it are. */
  lemma BlankSplit(s: string, a: nat)
    requires a <= |s|
    ensures Blank(s) <==> Blank(s[..a]) && Blank(s[a..])
  {
    assert forall i :: 0 <= i < a ==> s[..a][i] == s[i];
    assert forall i :: a <= i < |s| ==> s[a..][i - a] == s[i];
  }

  /** A string that is already trimmed is its own trim. */
  lemma TrimOfTrimmed(s: string)
    requires Trimmed(s)
    ensures Trim(s) == s
  {
  }

  lemma TrimIdempotent(s: string)
    ensures Trim(Trim(s)) == Trim(s)
  {
  }

  /** The first position of `c` in `s` (`indexOf`), or None when `c` does not occur. */
  function IndexOf(s: string, c: char): (r: Option<nat>)
    ensures r.Some? ==> r.value < |s| && s[r.value] == c
    ensures r.Some? ==> forall k :: 0 <= k < r.value ==> s[k] != c
    ensures r.None? <==> c !in s
  {
    if |s| == 0 then None
    else if s[0] == c then Some(0)
    else
      match IndexOf(s[1..], c)
      case None => None
      case Some(k) => Some(k + 1)
  }

  /** The last position of `c` in `s` (`lastIndexOf`), or None when `c` does not occur. */
  function LastIndexOf(s: string, c: char): (r: Option<nat>)
    ensures r.Some? ==> r.value < |s| && s[r.value] == c
    ensures r.Some? ==> forall k :: r.value < k < |s| ==> s[k] != c
    ensures r.None? <==> c !in s
  {
    if |s| == 0 then None
    else if s[|s| - 1] == c then Some(|s| - 1)
    else
      var r := LastIndexOf(s[..|s| - 1], c);
      assert s == s[..|s| - 1] + [s[|s| - 1]];
      r
  }

  /** In `x + y` with no `c` in `x` and `y` starting with `c`, the first `c` is where `y` begins. */
  lemma IndexOfAfter(x: string, y: string, c: char)
    requires c !in x && |y| > 0 && y[0] == c
    ensures IndexOf(x + y, c) == Some(|x|)
  {
    var s := x + y;
    assert s[..|x|] == x;
    assert s[|x|] == c;
  }

  /** In `x + y` with `x` ending in `c` and no `c` in `y`, the last `c` is where `x` ends. */
  lemma LastIndexOfBefore(x: string, y: string, c: char)
    requires c !in y && |x| > 0 && x[|x| - 1] == c
    ensures LastIndexOf(x + y, c) == Some(|x| - 1)
  {
    var s := x + y;
    assert s[|x|..] == y;
    assert s[|x| - 1] == c;
  }
}
