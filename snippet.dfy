/** The evidence-snippet extractor of `backend/src/utils/extractSnippet.ts`: a bounded
    window of context around a match, trimmed, with `...` markers at the edges that
    are cut off from the document. */
module Snippet {
  import opened Text

  /** Target window length. */
  const DesiredLen: nat := 260
  /** Characters of context kept before the match. */
  const LeadContext: nat := 120
  /** Absolute cap on the rendered snippet. */
  const HardCap: nat := 300
  /** The truncation marker. */
  const Marker: string := "..."

  /** `ensurePrefixEllipsis`: the result starts with the marker, and a value that
      already does is returned as is. */
  function EnsurePrefixEllipsis(value: string): (r: string)
    ensures StartsWith(r, Marker)
    ensures StartsWith(value, Marker) ==> r == value
    ensures r == value || r == Marker + value
  {
    if StartsWith(value, Marker) then value else Marker + value
  }

  /** `ensureSuffixEllipsis`: the result ends with the marker, and a value that
      already does is returned as is. */
  function EnsureSuffixEllipsis(value: string): (r: string)
    ensures EndsWith(r, Marker)
    ensures EndsWith(value, Marker) ==> r == value
    ensures r == value || r == value + Marker
  {
    if EndsWith(value, Marker) then value else value + Marker
  }

  lemma EnsurePrefixIdempotent(value: string)
    ensures EnsurePrefixEllipsis(EnsurePrefixEllipsis(value)) == EnsurePrefixEllipsis(value)
  {
  }

  lemma EnsureSuffixIdempotent(value: string)
    ensures EnsureSuffixEllipsis(EnsureSuffixEllipsis(value)) == EnsureSuffixEllipsis(value)
  {
  }

  /** The window `[start, end)` cut for a match starting at `matchStart` in a text of
      `len` characters: it starts up to `LeadContext` characters before the match, and
      when it reaches the end of the text it is re-anchored to the last `DesiredLen`
      characters. */
  function Window(len: nat, matchStart: nat): (w: (nat, nat))
    ensures w.0 <= w.1 <= len
    ensures w.0 <= matchStart
    ensures w.1 - w.0 <= DesiredLen
    ensures w.1 == len ==> w.0 == Max(0, len - DesiredLen)
    ensures w.1 < len ==> w.0 == Max(0, matchStart - LeadContext) && w.1 == w.0 + DesiredLen
  {
    var start := Max(0, matchStart - LeadContext);
    var end := Min(len, start + DesiredLen);
    if end == len then (Max(0, len - DesiredLen), end) else (start, end)
  }

  /** `body` with the marker ensured at the start when the window was cut there, then
      at the end when it was cut there. */
  function Decorate(body: string, cutStart: bool, cutEnd: bool): string {
    var withPrefix := if cutStart then EnsurePrefixEllipsis(body) else body;
    if cutEnd then EnsureSuffixEllipsis(withPrefix) else withPrefix
  }

  /** The trimmed window with the markers of the cut edges, before the hard cap. */
  function Rendered(text: string, ws: nat, we: nat): string
    requires ws <= we <= |text|
  {
    Decorate(Trim(text[ws..we]), ws > 0, we < |text|)
  }

  /** The final length cap: cut to `HardCap` characters, trim, and re-add the marker. */
  function Capped(s: string): string {
    if |s| > HardCap then EnsureSuffixEllipsis(Trim(Slice(s, 0, HardCap))) else s
  }

  /** `extractSnippet(originalText, matchStart, matchEnd)` as a value; `matchEnd` does
      not influence the result, as in the source. */
  function Snippet(text: string, matchStart: nat, matchEnd: nat): string {
    var w := Window(|text|, matchStart);
    Capped(Rendered(text, w.0, w.1))
  }

  /** `extractSnippet`, step by step as the source computes it. It never fails. */
  method ExtractSnippet(originalText: string, matchStart: nat, matchEnd: nat) returns (snippet: string)
    ensures snippet == Snippet(originalText, matchStart, matchEnd)
    ensures |snippet| <= DesiredLen + 2 * |Marker|
    ensures matchStart < matchEnd <= |originalText| && matchEnd - matchStart <= DesiredLen - LeadContext
            && !IsSpace(originalText[matchStart]) && !IsSpace(originalText[matchEnd - 1])
            ==> Includes(snippet, originalText[matchStart..matchEnd])
  {
    var textLen := |originalText|;
    var windowStart, windowEnd := CutWindow(textLen, matchStart);
    snippet := Trim(Slice(originalText, windowStart, windowEnd));
    snippet := AddMarkers(snippet, windowStart > 0, windowEnd < textLen);
    snippet := CapLength(snippet);
    SnippetLength(originalText, matchStart, matchEnd);
    if matchStart < matchEnd <= |originalText| && matchEnd - matchStart <= DesiredLen - LeadContext
       && !IsSpace(originalText[matchStart]) && !IsSpace(originalText[matchEnd - 1]) {
      SnippetContainsMatch(originalText, matchStart, matchEnd);
    }
  }

  /** The window step of `extractSnippet`: start `LeadContext` before the match and
      re-anchor to the last `DesiredLen` characters when the window reaches the end. */
  method CutWindow(textLen: nat, matchStart: nat) returns (windowStart: nat, windowEnd: nat)
    ensures (windowStart, windowEnd) == Window(textLen, matchStart)
  {
    windowStart := Max(0, matchStart - LeadContext);
    windowEnd := Min(textLen, windowStart + DesiredLen);
    if windowEnd == textLen {
      windowStart := Max(0, textLen - DesiredLen);
    }
  }

  /** The marker step of `extractSnippet`: `...` at each cut edge. */
  method AddMarkers(body: string, cutStart: bool, cutEnd: bool) returns (marked: string)
    ensures marked == Decorate(body, cutStart, cutEnd)
  {
    marked := body;
    if cutStart {
      marked := EnsurePrefixEllipsis(marked);
    }
    if cutEnd {
      marked := EnsureSuffixEllipsis(marked);
    }
  }

  /** The cap step of `extractSnippet`: a snippet over `HardCap` characters is cut,
      trimmed and marked again. */
  method CapLength(s: string) returns (capped: string)
    ensures capped == Capped(s)
  {
    capped := s;
    if |capped| > HardCap {
      capped := Trim(Slice(capped, 0, HardCap));
      capped := EnsureSuffixEllipsis(capped);
    }
  }

  // ------------------------------------------------------------------ lemmas

  /** The rendered snippet is the trimmed window, with at most one marker added on each
      side, and none on a side where the window reaches the document's edge. */
  lemma RenderedParts(text: string, ws: nat, we: nat) returns (pre: string, post: string)
    requires ws <= we <= |text|
    ensures Rendered(text, ws, we) == pre + Trim(text[ws..we]) + post
    ensures pre == "" || pre == Marker
    ensures post == "" || post == Marker
    ensures pre == (if ws > 0 && !StartsWith(Trim(text[ws..we]), Marker) then Marker else "")
    ensures post == (if we < |text| && !EndsWith(pre + Trim(text[ws..we]), Marker) then Marker else "")
  {
    pre, post := DecorateParts(Trim(text[ws..we]), ws > 0, we < |text|);
  }

  lemma DecorateParts(body: string, cutStart: bool, cutEnd: bool) returns (pre: string, post: string)
    ensures Decorate(body, cutStart, cutEnd) == pre + body + post
    ensures pre == "" || pre == Marker
    ensures post == "" || post == Marker
    ensures pre == (if cutStart && !StartsWith(body, Marker) then Marker else "")
    ensures post == (if cutEnd && !EndsWith(pre + body, Marker) then Marker else "")
  {
    var withPrefix := if cutStart then EnsurePrefixEllipsis(body) else body;
    pre := if withPrefix == body then "" else Marker;
    assert withPrefix == pre + body;
    var r := Decorate(body, cutStart, cutEnd);
    post := if r == withPrefix then "" else Marker;
    assert r == withPrefix + post;
  }

  /** The rendered window is at most `DesiredLen` plus two markers long, so the
      300-character cap never applies. */
  lemma SnippetLength(text: string, matchStart: nat, matchEnd: nat)
    ensures |Snippet(text, matchStart, matchEnd)| <= DesiredLen + 2 * |Marker|
    ensures Snippet(text, matchStart, matchEnd) == Rendered(text, Window(|text|, matchStart).0, Window(|text|, matchStart).1)
  {
    var w := Window(|text|, matchStart);
    var pre, post := RenderedParts(text, w.0, w.1);
  }

  /** A short text is shown whole: no markers on either side. */
  lemma ShortTextShownWhole(text: string, matchStart: nat, matchEnd: nat)
    requires |text| <= DesiredLen
    ensures Snippet(text, matchStart, matchEnd) == Trim(text)
  {
    SnippetLength(text, matchStart, matchEnd);
    var pre, post := RenderedParts(text, 0, |text|);
    assert text[0..|text|] == text;
  }

  /** A leading marker is added only when the window starts after offset 0, and a
      trailing one only when it ends before the end of the text; the snippet is the
      trimmed window with those markers around it. */
  lemma SnippetMarkers(text: string, matchStart: nat, matchEnd: nat)
    ensures var w := Window(|text|, matchStart);
            var body := Trim(text[w.0..w.1]);
            var s := Snippet(text, matchStart, matchEnd);
            && (w.0 > 0 ==> StartsWith(s, Marker))
            && (w.0 == 0 ==> StartsWith(s, body))
            && (w.1 < |text| ==> EndsWith(s, Marker))
            && (w.1 == |text| ==> EndsWith(s, body))
  {
    SnippetLength(text, matchStart, matchEnd);
    var w := Window(|text|, matchStart);
    var body := Trim(text[w.0..w.1]);
    var s := Snippet(text, matchStart, matchEnd);
    var pre, post := RenderedParts(text, w.0, w.1);
    if w.0 > 0 {
      var p := EnsurePrefixEllipsis(body);
      assert StartsWith(p, Marker);
      if w.1 < |text| {
        assert s == EnsureSuffixEllipsis(p);
        assert s[..3] == p[..3];
      }
    } else {
      assert s[..|body|] == body;
    }
    if w.1 < |text| {
      assert EndsWith(s, Marker);
    } else {
      assert s[|s| - |body|..] == body;
    }
  }

  /** The evidence test's check: a snippet that begins with the marker, over a window
      whose own text does not begin with a dot, comes from a match after offset 0. */
  lemma LeadingMarkerOnlyAfterStart(text: string, matchStart: nat, matchEnd: nat)
    requires var w := Window(|text|, matchStart);
             var body := Trim(text[w.0..w.1]);
             body != [] && body[0] != '.'
    requires StartsWith(Snippet(text, matchStart, matchEnd), Marker)
    ensures Window(|text|, matchStart).0 > 0 && matchStart > 0
  {
    var ws, we, pre, post := SnippetParts(text, matchStart, matchEnd);
    var body := Trim(text[ws..we]);
    FirstOfParts(pre, body, post);
    assert Marker[0] == '.';
    assert pre != [];
  }

  lemma FirstOfParts(pre: string, body: string, post: string)
    requires body != []
    ensures (pre + body + post)[0] == if pre == [] then body[0] else pre[0]
  {
  }

  /** The snippet as the trimmed window of `Window` with its markers. */
  lemma SnippetParts(text: string, matchStart: nat, matchEnd: nat) returns (ws: nat, we: nat, pre: string, post: string)
    ensures (ws, we) == Window(|text|, matchStart)
    ensures ws <= we <= |text|
    ensures Snippet(text, matchStart, matchEnd) == pre + Trim(text[ws..we]) + post
    ensures pre == (if ws > 0 && !StartsWith(Trim(text[ws..we]), Marker) then Marker else "")
    ensures post == (if we < |text| && !EndsWith(pre + Trim(text[ws..we]), Marker) then Marker else "")
  {
    SnippetLength(text, matchStart, matchEnd);
    var w := Window(|text|, matchStart);
    ws, we := w.0, w.1;
    pre, post := RenderedParts(text, ws, we);
  }

  /** A non-whitespace character at the match start yields a non-empty snippet. */
  lemma SnippetNonEmpty(text: string, matchStart: nat, matchEnd: nat)
    requires matchStart < |text| && !IsSpace(text[matchStart])
    ensures |Snippet(text, matchStart, matchEnd)| > 0
  {
    var ws, we, pre, post := SnippetParts(text, matchStart, matchEnd);
    WindowCoversMatch(|text|, matchStart, matchStart + 1);
    var k := TrimmedWindowKeepsSpan(text, ws, we, matchStart, matchStart + 1);
  }

  /** The window covers every match of at most `DesiredLen - LeadContext` (140) characters. */
  lemma WindowCoversMatch(len: nat, matchStart: nat, matchEnd: nat)
    requires matchStart <= matchEnd <= len
    requires matchEnd - matchStart <= DesiredLen - LeadContext
    ensures Window(len, matchStart).0 <= matchStart && matchEnd <= Window(len, matchStart).1
  {
  }

  /** The match's own text appears verbatim in the snippet when it is at most 140
      characters long and has no outer whitespace. */
  lemma SnippetContainsMatch(text: string, matchStart: nat, matchEnd: nat)
    requires matchStart < matchEnd <= |text|
    requires matchEnd - matchStart <= DesiredLen - LeadContext
    requires !IsSpace(text[matchStart]) && !IsSpace(text[matchEnd - 1])
    ensures Includes(Snippet(text, matchStart, matchEnd), text[matchStart..matchEnd])
  {
    var ws, we, pre, post := SnippetParts(text, matchStart, matchEnd);
    WindowCoversMatch(|text|, matchStart, matchEnd);
    var k := TrimmedWindowKeepsSpan(text, ws, we, matchStart, matchEnd);
    OccursInContext(pre, Trim(text[ws..we]), post, text[matchStart..matchEnd], k);
    IncludesAt(Snippet(text, matchStart, matchEnd), text[matchStart..matchEnd], |pre| + k);
  }

  // ------------------------------------------------------------ dot markers

  /** No run of four dots. */
  predicate NoFourDots(s: string) {
    !Includes(s, "....")
  }

  /** Neither end of `s` is a dot. */
  predicate NoDotEdges(s: string) {
    s == [] || (s[0] != '.' && s[|s| - 1] != '.')
  }

  /** Markers around a dot-free-edged string create no run of four dots. */
  lemma MarkersKeepNoFourDots(pre: string, t: string, post: string)
    requires pre == "" || pre == Marker
    requires post == "" || post == Marker
    requires NoFourDots(t) && NoDotEdges(t)
    requires t == [] ==> pre == "" || post == ""
    ensures NoFourDots(pre + t + post)
  {
    forall k: nat
      ensures !OccursAt(pre + t + post, "....", k)
    {
      NoRunAt(pre, t, post, k);
    }
  }

  lemma NoRunAt(pre: string, t: string, post: string, k: nat)
    requires pre == "" || pre == Marker
    requires post == "" || post == Marker
    requires NoFourDots(t) && NoDotEdges(t)
    requires t == [] ==> pre == "" || post == ""
    ensures !OccursAt(pre + t + post, "....", k)
  {
    var s := pre + t + post;
    if k + 4 > |s| {
    } else if |pre| <= k && k + 4 <= |pre| + |t| {
      var i := k - |pre|;
      forall m | k <= m < k + 4
        ensures s[m] == t[m - |pre|]
      {
      }
      assert s[k..k + 4] == t[i..i + 4];
      assert !OccursAt(t, "....", i);
    } else if k < |pre| {
      assert s[|pre|] == t[0];
      NoOccurrenceAt(s, "....", k, |pre|);
    } else {
      assert s[|pre| + |t| - 1] == t[|t| - 1];
      NoOccurrenceAt(s, "....", k, |pre| + |t| - 1);
    }
  }

  /** The markers introduce no run of four dots when the trimmed window has none and
      neither begins nor ends with a dot. */
  lemma NoFourDotsFromMarkers(text: string, matchStart: nat, matchEnd: nat)
    requires var w := Window(|text|, matchStart);
             var body := Trim(text[w.0..w.1]);
             NoFourDots(body) && NoDotEdges(body)
    ensures NoFourDots(Snippet(text, matchStart, matchEnd))
  {
    SnippetLength(text, matchStart, matchEnd);
    var w := Window(|text|, matchStart);
    var pre, post := RenderedParts(text, w.0, w.1);
    var body := Trim(text[w.0..w.1]);
    MarkersKeepNoFourDots(pre, body, post);
  }

  /** The condition is needed: a window whose text ends with a sentence's dot, cut
      before the end of the document, gets a run of four dots. */
  lemma FourDotsAfterSentenceEnd(text: string, matchStart: nat, matchEnd: nat)
    requires var w := Window(|text|, matchStart);
             var body := Trim(text[w.0..w.1]);
             w.1 < |text| && |body| >= 3 && body[|body| - 1] == '.' && body[|body| - 3..] != Marker
    ensures !NoFourDots(Snippet(text, matchStart, matchEnd))
  {
    var ws, we, pre, post := SnippetParts(text, matchStart, matchEnd);
    DotBeforeMarker(pre, Trim(text[ws..we]));
  }

  /** A dot followed by an added marker is a run of four dots. */
  lemma DotBeforeMarker(pre: string, body: string)
    requires |body| >= 3 && body[|body| - 1] == '.' && body[|body| - 3..] != Marker
    ensures !EndsWith(pre + body, Marker)
    ensures Includes(pre + body + Marker, "....")
  {
    var p := pre + body;
    assert p[|p| - 3..] == body[|body| - 3..];
    var s := p + Marker;
    assert s[|p| - 1..|p| + 3] == "....";
    IncludesAt(s, "....", |p| - 1);
  }
}
