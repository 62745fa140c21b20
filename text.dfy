/** The JavaScript string primitives the source relies on (`trim`, `toLowerCase`,
    `indexOf`, `lastIndexOf`, `includes`, `startsWith`, `endsWith`, `slice`,
    `split`, `join`), over strings of ASCII characters. Offsets are character
    offsets, as JavaScript string indices are. */
module Text {

  /** The whitespace `String.prototype.trim` removes, restricted to ASCII:
      space, and tab, line feed, vertical tab, form feed and carriage return
      (code points 9 to 13). */
  predicate IsSpace(c: char) {
    c == ' ' || '\t' <= c <= '\r'
  }

  /** ASCII `toLowerCase` of one character: only 'A'..'Z' change. */
  function LowerChar(c: char): (d: char)
    ensures IsSpace(d) <==> IsSpace(c)
    ensures d == '.' <==> c == '.'
  {
    if 'A' <= c <= 'Z' then (c as int - 'A' as int + 'a' as int) as char else c
  }

  /** `toLowerCase`: length-preserving, character by character. */
  function Lower(s: string): (r: string)
    ensures |r| == |s|
    ensures forall i :: 0 <= i < |s| ==> r[i] == LowerChar(s[i])
  {
    seq(|s|, i requires 0 <= i < |s| => LowerChar(s[i]))
  }

  // ---------------------------------------------------------------- trimming

  /** Every character of `s[lo..hi]` is whitespace. */
  predicate AllSpace(s: string, lo: nat, hi: nat)
    requires lo <= hi <= |s|
  {
    forall k :: lo <= k < hi ==> IsSpace(s[k])
  }

  /** `!s.trim()`: the string is empty or all whitespace. */
  predicate Blank(s: string) {
    AllSpace(s, 0, |s|)
  }

  /** Number of leading whitespace characters. */
  function Lead(s: string): (n: nat)
    ensures n <= |s|
    ensures AllSpace(s, 0, n)
    ensures n < |s| ==> !IsSpace(s[n])
  {
    if |s| > 0 && IsSpace(s[0]) then 1 + Lead(s[1..]) else 0
  }

  /** Number of trailing whitespace characters. */
  function Trail(s: string): (n: nat)
    ensures n <= |s|
    ensures AllSpace(s, |s| - n, |s|)
    ensures n < |s| ==> !IsSpace(s[|s| - 1 - n])
  {
    if |s| > 0 && IsSpace(s[|s| - 1]) then 1 + Trail(s[..|s| - 1]) else 0
  }

  function TrimStart(s: string): string {
    s[Lead(s)..]
  }

  function TrimEnd(s: string): string {
    s[..|s| - Trail(s)]
  }

  /** `String.prototype.trim`. */
  function Trim(s: string): (r: string)
    ensures |r| <= |s|
    ensures r == [] || (!IsSpace(r[0]) && !IsSpace(r[|r| - 1]))
    ensures r == [] <==> AllSpace(s, 0, |s|)
  {
    var t := TrimStart(s);
    assert AllSpace(t, 0, |t|) ==> Lead(s) == |s| by {
      if Lead(s) < |s| {
        assert t[0] == s[Lead(s)];
      }
    }
    TrimEnd(t)
  }

  predicate NoOuterSpace(s: string) {
    s == [] || (!IsSpace(s[0]) && !IsSpace(s[|s| - 1]))
  }

  /** A string without outer whitespace is its own trim; in particular `Trim` is idempotent. */
  lemma TrimNoOuterSpace(s: string)
    requires NoOuterSpace(s)
    ensures Trim(s) == s
  {
    if s != [] {
      assert Lead(s) == 0;
      assert Trail(s) == 0;
    }
  }

  lemma TrimIdempotent(s: string)
    ensures Trim(Trim(s)) == Trim(s)
  {
    TrimNoOuterSpace(Trim(s));
  }

  /** Trimming keeps every span whose first and last characters are not whitespace,
      and shifts it left by the number of leading spaces. */
  lemma TrimKeepsSpan(s: string, i: nat, j: nat)
    requires i < j <= |s|
    requires !IsSpace(s[i]) && !IsSpace(s[j - 1])
    ensures Lead(s) <= i
    ensures OccursAt(Trim(s), s[i..j], i - Lead(s))
  {
    var lead, hi := TrimBounds(s, i, j);
    SpanInSlice(s, lead, hi, i, j);
  }

  /** A span with non-space ends inside a window survives trimming the window. */
  lemma TrimmedWindowKeepsSpan(text: string, ws: nat, we: nat, i: nat, j: nat) returns (k: nat)
    requires ws <= i < j <= we <= |text|
    requires !IsSpace(text[i]) && !IsSpace(text[j - 1])
    ensures k <= i - ws
    ensures OccursAt(Trim(text[ws..we]), text[i..j], k)
  {
    var win := text[ws..we];
    SpanInSlice(text, ws, we, i, j);
    assert win[i - ws] == text[i] && win[j - ws - 1] == text[j - 1];
    TrimKeepsSpan(win, i - ws, j - ws);
    k := i - ws - Lead(win);
  }

  /** The trimmed string is `s[Lead(s)..hi]`, and it covers the non-space span `[i, j)`. */
  lemma TrimBounds(s: string, i: nat, j: nat) returns (lead: nat, hi: nat)
    requires i < j <= |s|
    requires !IsSpace(s[i]) && !IsSpace(s[j - 1])
    ensures lead == Lead(s) && lead <= i && j <= hi <= |s|
    ensures Trim(s) == s[lead..hi]
  {
    lead := Lead(s);
    var t := s[lead..];
    assert t == TrimStart(s);
    hi := |s| - Trail(t);
    assert t[j - 1 - lead] == s[j - 1];
    TrailBound(t, j - lead);
  }

  lemma SpanInSlice(s: string, a: nat, b: nat, i: nat, j: nat)
    requires a <= i <= j <= b <= |s|
    ensures OccursAt(s[a..b], s[i..j], i - a)
  {
    var w := s[a..b];
    var x := w[i - a..j - a];
    assert |x| == j - i;
    forall m | 0 <= m < j - i
      ensures x[m] == s[i..j][m]
    {
      assert x[m] == w[i - a + m] == s[i + m];
    }
    assert x == s[i..j];
  }

  /** A non-space character at offset `e - 1` bounds the trailing whitespace. */
  lemma TrailBound(t: string, e: nat)
    requires 0 < e <= |t| && !IsSpace(t[e - 1])
    ensures Trail(t) <= |t| - e
  {
  }

  // --------------------------------------------------------------- searching

  /** `sub` occurs in `s` starting at offset `k`. */
  predicate OccursAt(s: string, sub: string, k: nat) {
    k + |sub| <= |s| && s[k..k + |sub|] == sub
  }

  /** First occurrence of `sub` at or after `from`, or -1. */
  function IndexFrom(s: string, sub: string, from: nat): (r: int)
    ensures r == -1 || (from <= r && OccursAt(s, sub, r))
    ensures r == -1 ==> forall k: nat :: from <= k ==> !OccursAt(s, sub, k)
    ensures r >= 0 ==> forall k: nat :: from <= k < r ==> !OccursAt(s, sub, k)
    decreases |s| - from
  {
    if from + |sub| > |s| then -1
    else if OccursAt(s, sub, from) then from
    else IndexFrom(s, sub, from + 1)
  }

  /** `String.prototype.indexOf`: the first occurrence of `sub` in `s`, or -1. */
  function IndexOf(s: string, sub: string): (r: int)
    ensures -1 <= r
    ensures r == -1 <==> forall k: nat :: !OccursAt(s, sub, k)
    ensures r >= 0 ==> OccursAt(s, sub, r) && forall k: nat :: k < r ==> !OccursAt(s, sub, k)
  {
    IndexFrom(s, sub, 0)
  }

  /** `String.prototype.includes`. */
  predicate Includes(s: string, sub: string) {
    IndexOf(s, sub) >= 0
  }

  lemma IncludesAt(s: string, sub: string, k: nat)
    requires OccursAt(s, sub, k)
    ensures Includes(s, sub)
  {
  }

  /** An occurrence inside a part of a string is an occurrence in the whole. */
  lemma OccursInSlice(s: string, a: nat, b: nat, sub: string, k: nat)
    requires a <= b <= |s|
    requires OccursAt(s[a..b], sub, k)
    ensures OccursAt(s, sub, a + k)
  {
    forall m | 0 <= m < |sub|
      ensures s[a + k + m] == sub[m]
    {
      assert s[a..b][k + m] == sub[m];
    }
  }

  /** An occurrence stays one when text is added on either side. */
  lemma OccursInContext(pre: string, s: string, post: string, sub: string, k: nat)
    requires OccursAt(s, sub, k)
    ensures OccursAt(pre + s + post, sub, |pre| + k)
  {
    var w := pre + s + post;
    forall m | 0 <= m < |sub|
      ensures w[|pre| + k + m] == sub[m]
    {
      assert w[|pre| + k + m] == s[k + m];
      assert s[k..k + |sub|][m] == sub[m];
    }
    assert w[|pre| + k..|pre| + k + |sub|] == sub;
  }

  /** A mismatching character inside `[k, k + |sub|)` rules out an occurrence at `k`. */
  lemma NoOccurrenceAt(s: string, sub: string, k: nat, q: nat)
    requires k <= q < k + |sub| && q < |s| && s[q] != sub[q - k]
    ensures !OccursAt(s, sub, k)
  {
    if k + |sub| <= |s| {
      assert s[k..k + |sub|][q - k] == s[q];
    }
  }

  /** A string lacking a character of `sub` does not contain `sub`. */
  lemma MissingCharExcludes(s: string, sub: string, p: nat)
    requires p < |sub| && sub[p] !in s
    ensures !Includes(s, sub)
  {
    forall k: nat
      ensures !OccursAt(s, sub, k)
    {
      if k + p < |s| {
        NoOccurrenceAt(s, sub, k, k + p);
      }
    }
  }

  /** `String.prototype.lastIndexOf` for a single character. */
  function LastIndexOfChar(s: string, c: char): (r: int)
    ensures -1 <= r < |s|
    ensures r >= 0 ==> s[r] == c
    ensures forall k :: r < k < |s| ==> s[k] != c
  {
    if |s| == 0 then -1
    else if s[|s| - 1] == c then |s| - 1
    else LastIndexOfChar(s[..|s| - 1], c)
  }

  /** `String.prototype.startsWith`. */
  predicate StartsWith(s: string, p: string) {
    |p| <= |s| && s[..|p|] == p
  }

  /** `String.prototype.endsWith`. */
  predicate EndsWith(s: string, p: string) {
    |p| <= |s| && s[|s| - |p|..] == p
  }

  // ---------------------------------------------------------------- slicing

  function Min(a: int, b: int): int { if a <= b then a else b }

  function Max(a: int, b: int): int { if a <= b then b else a }

  /** `String.prototype.slice` for non-negative arguments: both ends are clamped to
      the length, and an inverted range gives the empty string. */
  function Slice(s: string, start: nat, end: nat): (r: string)
    ensures |r| <= |s|
    ensures start <= end <= |s| ==> r == s[start..end]
    ensures end <= |s| ==> |r| <= end
  {
    var a := Min(start, |s|);
    var b := Min(end, |s|);
    if a <= b then s[a..b] else []
  }

  /** `Array.prototype.slice(0, n)`: the first `n` items, or all of them. */
  function Take<T>(xs: seq<T>, n: nat): (r: seq<T>)
    ensures |r| == Min(|xs|, n)
    ensures r == xs[..|r|]
  {
    if |xs| <= n then xs else xs[..n]
  }

  // ------------------------------------------------------- splitting, joining

  /** `s.split(c)` for a one-character separator: always at least one part, and no
      part contains the separator. */
  function Split(s: string, c: char): (r: seq<string>)
    ensures |r| >= 1
    ensures forall i :: 0 <= i < |r| ==> c !in r[i]
  {
    if |s| == 0 then [""]
    else
      var rest := Split(s[1..], c);
      if s[0] == c then [""] + rest else [[s[0]] + rest[0]] + rest[1..]
  }

  /** `parts.join(sep)`. */
  function Join(parts: seq<string>, sep: string): string {
    if |parts| == 0 then ""
    else if |parts| == 1 then parts[0]
    else parts[0] + sep + Join(parts[1..], sep)
  }

  lemma JoinConsFirst(x: char, first: string, tail: seq<string>, sep: string)
    ensures Join([[x] + first] + tail, sep) == [x] + Join([first] + tail, sep)
  {
    if |tail| > 0 {
      assert ([[x] + first] + tail)[1..] == tail;
      assert ([first] + tail)[1..] == tail;
    }
  }

  /** Joining the parts of a split with the separator gives back the string. */
  lemma {:induction false} JoinSplit(s: string, c: char)
    ensures Join(Split(s, c), [c]) == s
  {
    if |s| > 0 {
      var rest := Split(s[1..], c);
      JoinSplit(s[1..], c);
      if s[0] == c {
        assert ([""] + rest)[1..] == rest;
      } else {
        JoinConsFirst(s[0], rest[0], rest[1..], [c]);
        assert [rest[0]] + rest[1..] == rest;
      }
      assert s == [s[0]] + s[1..];
    }
  }

  /** Splitting at a separator splits the two sides independently. */
  lemma {:induction false} SplitAround(x: string, y: string, c: char)
    ensures Split(x + [c] + y, c) == Split(x, c) + Split(y, c)
  {
    if |x| == 0 {
      assert x + [c] + y == [c] + y;
      assert ([c] + y)[1..] == y;
    } else {
      assert (x + [c] + y)[1..] == x[1..] + [c] + y;
      SplitAround(x[1..], y, c);
    }
  }
}
