/** The deterministic part of `backend/src/ai/gemini.ts`: confidence coercion, phrase
    checks, the grounding snippets taken from the lease text, the fixed fallbacks of the
    explanation, and the normalisation applied to each decoded model response. */
module Gemini {
  import opened Wrappers
  import opened Text
  import opened JsValue

  datatype Confidence = Low | Medium | High

  /** The answer to an explanation request. */
  datatype ExplainResult = ExplainResult(explanation: string, keyPoints: seq<string>, questionsToAsk: seq<string>)

  /** The answer to a question about the lease. */
  datatype QaResult = QaResult(answer: string, confidence: Confidence, basedOn: seq<string>)

  /** The filler used wherever the model gave nothing usable. */
  const NotSpecified: string := "Not specified " + "in the text provided."
  /** The same sentence as searched for in lower-cased text. */
  const NotSpecifiedLower: string := "not specified " + "in the text provided."
  /** The answer used when the model found nothing and no grounding snippet exists. */
  const NoClauseFound: string := "No clause found about this in provided text"

  /** `asConfidence`: the value when it is one of the three names, `low` otherwise. */
  function AsConfidence(value: Value): (c: Confidence)
    ensures c == High <==> value == Str("high")
    ensures c == Medium <==> value == Str("medium")
    ensures c == Low <==> value != Str("high") && value != Str("medium")
  {
    if value == Str("low") then Low
    else if value == Str("medium") then Medium
    else if value == Str("high") then High
    else Low
  }

  /** `includesPhrase`: some item, lower-cased, contains `phrase`. */
  function IncludesPhrase(items: seq<string>, phrase: string): (r: bool)
    ensures r <==> exists i :: 0 <= i < |items| && Includes(Lower(items[i]), phrase)
  {
    if |items| == 0 then false
    else Includes(Lower(items[0]), phrase) || (assert forall i :: 1 <= i < |items| ==> items[1..][i - 1] == items[i]; IncludesPhrase(items[1..], phrase))
  }

  /** Every item, lower-cased, contains `phrase` (`every` of the source). */
  function AllInclude(items: seq<string>, phrase: string): (r: bool)
    ensures r <==> forall i :: 0 <= i < |items| ==> Includes(Lower(items[i]), phrase)
  {
    if |items| == 0 then true
    else Includes(Lower(items[0]), phrase) && (assert forall i :: 1 <= i < |items| ==> items[1..][i - 1] == items[i]; AllInclude(items[1..], phrase))
  }

  /** The length cap applied throughout: a string longer than `cap` is cut to its
      first `cap` characters and trimmed again. A trimmed non-empty string stays
      non-empty. */
  function Cap(s: string, cap: nat): (r: string)
    ensures |s| <= cap ==> r == s
    ensures |s| > cap ==> |r| <= cap && NoOuterSpace(r)
    ensures NoOuterSpace(s) ==> NoOuterSpace(r)
    ensures s != [] && !IsSpace(s[0]) && cap > 0 ==> r != []
  {
    if |s| > cap then
      var cut := Slice(s, 0, cap);
      assert s != [] && !IsSpace(s[0]) && cap > 0 ==> cut[0] == s[0];
      Trim(cut)
    else s
  }

  // -------------------------------------------------------- grounding snippets

  /** The earliest keyword so far: its offset in the lower-cased text (-1 for none)
      and the keyword's length. */
  datatype Earliest = Earliest(index: int, len: nat)

  /** The keyword loop of `extractBasedOnSnippets`: a keyword replaces the current one
      only when it occurs strictly earlier, so on a tie the first listed wins. */
  function FirstKeyword(lower: string, keywords: seq<string>): (e: Earliest)
    ensures e.index >= -1
    ensures e.index >= 0 ==> e.index + e.len <= |lower|
  {
    if |keywords| == 0 then Earliest(-1, 0)
    else
      var prev := FirstKeyword(lower, keywords[..|keywords| - 1]);
      var keyword := keywords[|keywords| - 1];
      var idx := At(lower, keyword);
      if idx != -1 && (prev.index == -1 || idx < prev.index) then Earliest(idx, |keyword|)
      else prev
  }

  /** The window cut around the keyword: 40 characters before it and 60 after it,
      trimmed, then cut to 120 characters and trimmed again when longer. */
  function GroundingSnippet(text: string, index: nat, len: nat): (s: string)
    ensures |s| <= 120
  {
    Cap(Trim(Slice(text, Max(0, index - 40), Min(|text|, index + len + 60))), 120)
  }

  /** `extractBasedOnSnippets(text, keywords)` as a value. */
  function BasedOnSnippets(text: string, keywords: seq<string>): seq<string> {
    var e := FirstKeyword(Lower(text), keywords);
    if e.index == -1 then [] else [GroundingSnippet(text, e.index, e.len)]
  }

  /** `extractBasedOnSnippets`, with the source's loop. */
  method ExtractBasedOnSnippets(text: string, keywords: seq<string>) returns (snippets: seq<string>)
    ensures snippets == BasedOnSnippets(text, keywords)
  {
    var lower := Lower(text);
    var matchIndex := -1;
    var matchLen: nat := 0;
    for j := 0 to |keywords|
      invariant Earliest(matchIndex, matchLen) == FirstKeyword(lower, keywords[..j])
    {
      assert keywords[..j + 1][..j] == keywords[..j];
      var idx := IndexOf(lower, Lower(keywords[j]));
      if idx != -1 && (matchIndex == -1 || idx < matchIndex) {
        matchIndex := idx;
        matchLen := |keywords[j]|;
      }
    }
    assert keywords[..|keywords|] == keywords;
    if matchIndex == -1 {
      return [];
    }
    var snippetStart := Max(0, matchIndex - 40);
    var snippetEnd := Min(|text|, matchIndex + matchLen + 60);
    var snippet := Trim(Slice(text, snippetStart, snippetEnd));
    snippets := [snippet];
    if |snippet| > 120 {
      snippets := snippets[0 := Trim(Slice(snippet, 0, 120))];
    }
  }

  /** A found offset is that of some keyword `w`, and the length is that keyword's. */
  lemma {:induction false} FirstKeywordSource(lower: string, keywords: seq<string>) returns (w: nat)
    ensures var e := FirstKeyword(lower, keywords);
            e.index >= 0 ==> w < |keywords| && e.len == |keywords[w]| && OccursAt(lower, Lower(keywords[w]), e.index)
  {
    w := 0;
    if |keywords| > 0 {
      var n := |keywords| - 1;
      var v := FirstKeywordSource(lower, keywords[..n]);
      var idx := At(lower, keywords[n]);
      var prev := FirstKeyword(lower, keywords[..n]);
      if idx != -1 && (prev.index == -1 || idx < prev.index) {
        w := n;
      } else {
        w := v;
        if prev.index >= 0 {
          assert keywords[..n][v] == keywords[v];
        }
      }
    }
  }

  /** Offset of the lower-cased keyword in the lower-cased text, or -1. */
  function At(lower: string, keyword: string): int {
    IndexOf(lower, Lower(keyword))
  }

  /** The offset of every keyword, in list order. */
  function Offsets(lower: string, keywords: seq<string>): (r: seq<int>)
    ensures |r| == |keywords|
    ensures forall k :: 0 <= k < |keywords| ==> r[k] == At(lower, keywords[k]) && r[k] >= -1
  {
    seq(|keywords|, k requires 0 <= k < |keywords| => At(lower, keywords[k]))
  }

  /** Entry `w` is a found offset, no found offset is smaller, and no entry before `w`
      has the same offset. */
  predicate FirstMin(offs: seq<int>, w: nat)
    requires w < |offs|
  {
    && offs[w] >= 0
    && (forall k :: 0 <= k < |offs| && offs[k] >= 0 ==> offs[w] <= offs[k])
    && (forall k :: 0 <= k < w ==> offs[k] != offs[w])
  }

  /** Every offset is -1: nothing was found. */
  predicate NoneFound(offs: seq<int>) {
    forall k :: 0 <= k < |offs| ==> offs[k] == -1
  }

  /** One step of the keyword loop on offsets: the new entry wins only when it was
      found strictly before the current winner. */
  lemma FirstMinSnoc(offs: seq<int>, v: int) returns (w: int)
    requires |offs| > 0 && forall k :: 0 <= k < |offs| ==> offs[k] >= -1
    requires -1 <= v < |offs| - 1
    requires v == -1 <==> NoneFound(offs[..|offs| - 1])
    requires v >= 0 ==> FirstMin(offs[..|offs| - 1], v)
    ensures var n := |offs| - 1;
            w == if offs[n] != -1 && (v == -1 || offs[n] < offs[v]) then n else v
    ensures w == -1 <==> NoneFound(offs)
    ensures w >= 0 ==> w < |offs| && FirstMin(offs, w)
  {
    var n := |offs| - 1;
    var init := offs[..n];
    assert forall k :: 0 <= k < n ==> init[k] == offs[k];
    if offs[n] != -1 && (v == -1 || offs[n] < offs[v]) {
      w := n;
      if v >= 0 {
        assert FirstMin(init, v);
      }
    } else {
      w := v;
      if v >= 0 {
        assert FirstMin(init, v);
      }
    }
  }

  /** The keyword loop picks the first listed among the keywords occurring earliest
      (returned as `w`), and finds none (`w == -1`) exactly when no keyword occurs. */
  lemma {:induction false} FirstKeywordWinner(lower: string, keywords: seq<string>) returns (w: int)
    ensures -1 <= w < |keywords|
    ensures FirstKeyword(lower, keywords).index == -1 <==> w == -1
    ensures w == -1 <==> NoneFound(Offsets(lower, keywords))
    ensures w >= 0 ==> FirstMin(Offsets(lower, keywords), w)
                       && FirstKeyword(lower, keywords) == Earliest(At(lower, keywords[w]), |keywords[w]|)
  {
    var offs := Offsets(lower, keywords);
    if |keywords| == 0 {
      return -1;
    }
    var n := |keywords| - 1;
    var init := keywords[..n];
    var v := FirstKeywordWinner(lower, init);
    assert Offsets(lower, init) == offs[..n];
    w := FirstMinSnoc(offs, v);
    if v >= 0 {
      assert init[v] == keywords[v];
    }
  }

  /** No snippet exactly when no keyword occurs case-insensitively; otherwise exactly
      one, of at most 120 characters. */
  lemma BasedOnSnippetsShape(text: string, keywords: seq<string>)
    ensures var r := BasedOnSnippets(text, keywords);
            && (r == [] <==> NoneFound(Offsets(Lower(text), keywords)))
            && |r| <= 1
            && (forall i :: 0 <= i < |r| ==> |r[i]| <= 120)
  {
    var w := FirstKeywordWinner(Lower(text), keywords);
  }

  /** For keywords of at most 80 characters without outer whitespace, the snippet
      contains the text the winning keyword matched, `text[i..i + n]`. */
  lemma BasedOnSnippetHasMatch(text: string, keywords: seq<string>) returns (i: int, n: nat)
    requires forall k :: 0 <= k < |keywords| ==> 0 < |keywords[k]| <= 80 && NoOuterSpace(keywords[k])
    ensures FirstKeyword(Lower(text), keywords) == Earliest(i, n)
    ensures BasedOnSnippets(text, keywords) != [] <==> i >= 0
    ensures i >= 0 ==> i + n <= |text| && Includes(BasedOnSnippets(text, keywords)[0], text[i..i + n])
  {
    i, n := WinnerSpan(text, keywords);
    if i >= 0 {
      SnippetIncludesSpan(text, i, n);
      assert BasedOnSnippets(text, keywords) == [GroundingSnippet(text, i, n)];
    }
  }

  /** The span the winning keyword matched: at most 80 characters, without outer
      whitespace. */
  lemma WinnerSpan(text: string, keywords: seq<string>) returns (i: int, n: nat)
    requires forall k :: 0 <= k < |keywords| ==> 0 < |keywords[k]| <= 80 && NoOuterSpace(keywords[k])
    ensures FirstKeyword(Lower(text), keywords) == Earliest(i, n)
    ensures i >= 0 ==> 0 < n <= 80 && i + n <= |text| && NoOuterSpace(text[i..i + n])
  {
    var lower := Lower(text);
    var e := FirstKeyword(lower, keywords);
    var w := FirstKeywordSource(lower, keywords);
    i, n := e.index, e.len;
    if i >= 0 {
      MatchEndsNotSpace(text, keywords[w], i, n);
    }
  }

  /** The grounding snippet around a span without outer whitespace contains it. */
  lemma SnippetIncludesSpan(text: string, index: nat, len: nat)
    requires 0 < len <= 80 && index + len <= |text|
    requires NoOuterSpace(text[index..index + len])
    ensures Includes(GroundingSnippet(text, index, len), text[index..index + len])
  {
    var at := GroundingSnippetHasSpan(text, index, len);
    IncludesAt(GroundingSnippet(text, index, len), text[index..index + len], at);
  }

  /** A span of at most 80 characters without outer whitespace survives the cut. */
  lemma GroundingSnippetHasSpan(text: string, index: nat, len: nat) returns (k: nat)
    requires 0 < len <= 80 && index + len <= |text|
    requires NoOuterSpace(text[index..index + len])
    ensures OccursAt(GroundingSnippet(text, index, len), text[index..index + len], k)
  {
    var at := WindowKeepsSpan(text, index, len);
    var w := Trim(Slice(text, Max(0, index - 40), Min(|text|, index + len + 60)));
    var m := text[index..index + len];
    k := CapKeepsSpan(w, m, at, 120);
    assert OccursAt(Cap(w, 120), m, k);
  }

  /** The trimmed window keeps the span within its first 120 characters. */
  lemma WindowKeepsSpan(text: string, index: nat, len: nat) returns (at: nat)
    requires 0 < len <= 80 && index + len <= |text|
    requires NoOuterSpace(text[index..index + len])
    ensures at + len <= 120
    ensures OccursAt(Trim(Slice(text, Max(0, index - 40), Min(|text|, index + len + 60))), text[index..index + len], at)
  {
    var ws, we := Max(0, index - 40), Min(|text|, index + len + 60);
    var m := text[index..index + len];
    assert m[0] == text[index] && m[len - 1] == text[index + len - 1];
    at := TrimmedWindowKeepsSpan(text, ws, we, index, index + len);
    assert Slice(text, ws, we) == text[ws..we];
  }

  /** A span with non-space ends inside the first `cap` characters survives `Cap`. */
  lemma CapKeepsSpan(s: string, m: string, at: nat, cap: nat) returns (k: nat)
    requires OccursAt(s, m, at) && m != [] && NoOuterSpace(m)
    requires at + |m| <= cap
    ensures OccursAt(Cap(s, cap), m, k)
  {
    k := at;
    if |s| > cap {
      k := CutKeepsSpan(s, m, at, cap);
    }
  }

  /** The text matched by a keyword without outer whitespace has none either, since
      lower-casing keeps whitespace. */
  lemma MatchEndsNotSpace(text: string, keyword: string, i: nat, n: nat)
    requires n == |keyword| && keyword != [] && NoOuterSpace(keyword)
    requires OccursAt(Lower(text), Lower(keyword), i)
    ensures i + n <= |text|
    ensures NoOuterSpace(text[i..i + n])
  {
    var lower, kw := Lower(text), Lower(keyword);
    assert lower[i..i + n][0] == kw[0] && lower[i..i + n][n - 1] == kw[n - 1];
    assert lower[i] == LowerChar(text[i]) && kw[0] == LowerChar(keyword[0]);
    assert lower[i + n - 1] == LowerChar(text[i + n - 1]) && kw[n - 1] == LowerChar(keyword[n - 1]);
    assert text[i..i + n][0] == text[i] && text[i..i + n][n - 1] == text[i + n - 1];
  }

  /** A span with non-space ends inside the first `cap` characters survives cutting to
      `cap` characters and trimming. */
  lemma CutKeepsSpan(s: string, m: string, at: nat, cap: nat) returns (k: nat)
    requires OccursAt(s, m, at) && m != [] && NoOuterSpace(m)
    requires at + |m| <= cap <= |s|
    ensures OccursAt(Trim(Slice(s, 0, cap)), m, k)
  {
    var p := s[..cap];
    assert Slice(s, 0, cap) == p;
    assert p[at..at + |m|] == s[at..at + |m|];
    assert p[at] == m[0] && p[at + |m| - 1] == m[|m| - 1];
    TrimKeepsSpan(p, at, at + |m|);
    k := at - Lead(p);
  }

  // ------------------------------------------------- explanation fallbacks

  // The long sentences are written in pieces: the verifier reasons about short
  // string literals far more readily than about long ones.
  const FallbackKeyPoints: seq<string> := [
    "Lease renews automatically for " + "12 months" + " unless you stop it.",
    "You must give " + "written notice" + " at least " + "60 days" + " before the end date.",
    "Missing the deadline may renew your lease for another term."
  ]

  const FallbackQuestions: seq<string> := [
    "How should I deliver written " + "notice (email, mail, " + "certified mail)?",
    "What happens if I miss the " + "60-day deadline?",
    "Will the renewal be month-to-" + "month or a full 12-month term?"
  ]

  /** The key points mention written notice, 60 days and 12 months. */
  predicate CoversRenewal(keyPoints: seq<string>) {
    IncludesPhrase(keyPoints, "written notice") && IncludesPhrase(keyPoints, "60 days") && IncludesPhrase(keyPoints, "12 months")
  }

  /** Every question is the "not specified" filler, and there is at least one. */
  predicate AllUnspecified(questions: seq<string>) {
    |questions| > 0 && AllInclude(questions, NotSpecifiedLower)
  }

  /** `applyExplainPostValidation`: key points that do not cover the renewal facts are
      replaced by the fixed three, and questions that are all fillers by the fixed three;
      the explanation is kept. */
  function ApplyExplainPostValidation(explanation: string, keyPoints: seq<string>, questionsToAsk: seq<string>): (r: ExplainResult)
    ensures r.explanation == explanation
    ensures r.keyPoints == keyPoints || r.keyPoints == FallbackKeyPoints
    ensures r.keyPoints == keyPoints <==> CoversRenewal(keyPoints) || keyPoints == FallbackKeyPoints
    ensures r.questionsToAsk == questionsToAsk || r.questionsToAsk == FallbackQuestions
    ensures r.questionsToAsk == questionsToAsk <==> !AllUnspecified(questionsToAsk) || questionsToAsk == FallbackQuestions
  {
    var nextKeyPoints := if !CoversRenewal(keyPoints) then FallbackKeyPoints else keyPoints;
    var nextQuestions := if AllUnspecified(questionsToAsk) then FallbackQuestions else questionsToAsk;
    ExplainResult(explanation, nextKeyPoints, nextQuestions)
  }

  /** An occurrence of a phrase without capitals survives lower-casing. */
  lemma LowerKeepsOccurrence(s: string, phrase: string, k: nat)
    requires OccursAt(s, phrase, k)
    requires forall i :: 0 <= i < |phrase| ==> !('A' <= phrase[i] <= 'Z')
    ensures Includes(Lower(s), phrase)
  {
    var l := Lower(s);
    forall i | 0 <= i < |phrase|
      ensures l[k..k + |phrase|][i] == phrase[i]
    {
      assert s[k..k + |phrase|][i] == s[k + i];
    }
    assert l[k..k + |phrase|] == phrase;
    IncludesAt(l, phrase, k);
  }

  /** One item containing the phrase is enough. */
  lemma PhraseInItem(items: seq<string>, i: nat, phrase: string)
    requires i < |items| && Includes(Lower(items[i]), phrase)
    ensures IncludesPhrase(items, phrase)
  {
  }

  /** A phrase without capitals between any prefix and suffix survives lower-casing. */
  lemma LowerKeepsInfix(pre: string, phrase: string, post: string)
    requires forall i :: 0 <= i < |phrase| ==> !('A' <= phrase[i] <= 'Z')
    ensures Includes(Lower(pre + phrase + post), phrase)
  {
    var s := pre + phrase + post;
    assert s[|pre|..|pre| + |phrase|] == phrase;
    LowerKeepsOccurrence(s, phrase, |pre|);
  }

  lemma FirstKeyPointMentionsTerm()
    ensures Includes(Lower(FallbackKeyPoints[0]), "12 months")
  {
    LowerKeepsInfix("Lease renews automatically for ", "12 months", " unless you stop it.");
  }

  lemma SecondKeyPointMentionsNotice()
    ensures Includes(Lower(FallbackKeyPoints[1]), "written notice")
  {
    var a, b, c, d, e := "You must give ", "written notice", " at least ", "60 days", " before the end date.";
    LowerKeepsInfix(a, b, c + d + e);
    assert a + b + (c + d + e) == a + b + c + d + e;
  }

  lemma SecondKeyPointMentionsDeadline()
    ensures Includes(Lower(FallbackKeyPoints[1]), "60 days")
  {
    LowerKeepsInfix("You must give " + "written notice" + " at least ", "60 days", " before the end date.");
  }

  /** The fixed key points cover the renewal facts. */
  lemma FallbackKeyPointsCover()
    ensures CoversRenewal(FallbackKeyPoints)
  {
    FirstKeyPointMentionsTerm();
    SecondKeyPointMentionsNotice();
    SecondKeyPointMentionsDeadline();
    PhraseInItem(FallbackKeyPoints, 0, "12 months");
    PhraseInItem(FallbackKeyPoints, 1, "written notice");
    PhraseInItem(FallbackKeyPoints, 1, "60 days");
  }

  /** The fixed questions are not fillers: the first has no full stop. */
  lemma FallbackQuestionsSpecified()
    ensures !AllUnspecified(FallbackQuestions)
  {
    var q := FallbackQuestions[0];
    assert '.' !in q;
    assert '.' !in Lower(q) by {
      forall i | 0 <= i < |q|
        ensures Lower(q)[i] != '.'
      {
        assert q[i] in q;
      }
    }
    assert NotSpecifiedLower[34] == '.';
    MissingCharExcludes(Lower(q), NotSpecifiedLower, 34);
  }

  /** Post-validation is idempotent. */
  lemma PostValidationIdempotent(explanation: string, keyPoints: seq<string>, questionsToAsk: seq<string>)
    ensures var r := ApplyExplainPostValidation(explanation, keyPoints, questionsToAsk);
            ApplyExplainPostValidation(r.explanation, r.keyPoints, r.questionsToAsk) == r
  {
    FallbackKeyPointsCover();
    FallbackQuestionsSpecified();
  }

  /** The three fillers of the test suite are replaced by both fixed lists. */
  lemma PostValidationReplacesFillers()
    ensures var r := ApplyExplainPostValidation(NotSpecified, [NotSpecified], [NotSpecified]);
            r.keyPoints == FallbackKeyPoints && r.questionsToAsk == FallbackQuestions
  {
    LowerNotSpecified();
    assert NotSpecifiedLower[0..|NotSpecifiedLower|] == NotSpecifiedLower;
    IncludesAt(NotSpecifiedLower, NotSpecifiedLower, 0);
    assert AllUnspecified([NotSpecified]);
    assert 'w' !in NotSpecifiedLower;
    MissingCharExcludes(NotSpecifiedLower, "written notice", 0);
    assert !IncludesPhrase([NotSpecified], "written notice");
  }

  /** Lower-casing the filler gives the sentinel searched for. */
  lemma LowerNotSpecified()
    ensures Lower(NotSpecified) == NotSpecifiedLower
  {
    var a, b := "Not specified ", "in the text provided.";
    assert NotSpecified == a + b;
    var l := Lower(a + b);
    forall i | 0 <= i < |a|
      ensures l[i] == NotSpecifiedLower[i]
    {
      assert (a + b)[i] == a[i];
      assert ("not specified " + b)[i] == "not specified "[i];
    }
    forall i | |a| <= i < |a| + |b|
      ensures l[i] == NotSpecifiedLower[i]
    {
      assert (a + b)[i] == b[i - |a|];
      assert ("not specified " + b)[i] == b[i - |a|];
    }
  }

  // ------------------------------------------------- response normalisation

  /** `typeof v === "string" && v.trim() ? v.trim() : "Not specified ..."`. */
  function TrimmedOrNotSpecified(v: Value): (r: string)
    ensures r != [] && NoOuterSpace(r)
    ensures v.Str? && Trim(v.s) != [] ==> r == Trim(v.s)
    ensures !(v.Str? && Trim(v.s) != []) ==> r == NotSpecified
  {
    if v.Str? && Trim(v.s) != [] then Trim(v.s) else NotSpecified
  }

  /** The item pipeline `map(trim) . filter(Boolean) . map(cap)`: strings are trimmed,
      empty results and non-strings dropped, long items capped. */
  function CleanItems(items: seq<Value>, cap: nat): (r: seq<string>)
    requires cap > 0
    ensures |r| <= |items|
    ensures forall i :: 0 <= i < |r| ==> r[i] != [] && |r[i]| <= cap && NoOuterSpace(r[i])
  {
    if |items| == 0 then []
    else
      var item := if items[0].Str? then Trim(items[0].s) else "";
      var rest := CleanItems(items[1..], cap);
      if item == [] then rest else CappedItemClean(item, cap); [Cap(item, cap)] + rest
  }

  /** A non-empty item without outer whitespace stays so once capped. */
  lemma CappedItemClean(item: string, cap: nat)
    requires cap > 0 && item != [] && NoOuterSpace(item)
    ensures var c := Cap(item, cap); c != [] && |c| <= cap && NoOuterSpace(c)
  {
  }

  /** The cleaned strings again as decoded values. */
  function AsValues(items: seq<string>): (r: seq<Value>)
    ensures |r| == |items| && forall i :: 0 <= i < |items| ==> r[i] == Str(items[i])
  {
    seq(|items|, i requires 0 <= i < |items| => Str(items[i]))
  }

  /** Cleaning is idempotent: a cleaned list passes through the pipeline unchanged. */
  lemma {:induction false} CleanItemsIdempotent(items: seq<Value>, cap: nat)
    requires cap > 0
    ensures CleanItems(AsValues(CleanItems(items, cap)), cap) == CleanItems(items, cap)
  {
    var r := CleanItems(items, cap);
    CleanedPassThrough(r, cap);
  }

  /** Non-empty items without outer whitespace and within the cap are kept as they are. */
  lemma {:induction false} CleanedPassThrough(r: seq<string>, cap: nat)
    requires cap > 0
    requires forall i :: 0 <= i < |r| ==> r[i] != [] && |r[i]| <= cap && NoOuterSpace(r[i])
    ensures CleanItems(AsValues(r), cap) == r
  {
    if |r| > 0 {
      assert AsValues(r)[1..] == AsValues(r[1..]);
      CleanedPassThrough(r[1..], cap);
      TrimNoOuterSpace(r[0]);
      assert [r[0]] + r[1..] == r;
    }
  }

  /** A list cleaned and then padded with fillers up to `lo` items and cut to `hi`. */
  function Filled(cleaned: seq<string>, lo: nat, hi: nat): (r: seq<string>)
    requires lo <= hi
    ensures |r| == if |cleaned| < lo then lo else Min(|cleaned|, hi)
    ensures forall i :: 0 <= i < |r| ==> r[i] == if i < |cleaned| then cleaned[i] else NotSpecified
  {
    if |cleaned| < lo then cleaned + seq(lo - |cleaned|, _ => NotSpecified) else Take(cleaned, hi)
  }

  /** Filling keeps the items' bounds, and brings the count between `lo` and `hi`. */
  lemma FilledBounds(cleaned: seq<string>, lo: nat, hi: nat, cap: nat)
    requires lo <= hi && |NotSpecified| <= cap
    requires forall i :: 0 <= i < |cleaned| ==> cleaned[i] != [] && |cleaned[i]| <= cap
    ensures var r := Filled(cleaned, lo, hi);
            lo <= |r| <= hi && forall i :: 0 <= i < |r| ==> r[i] != [] && |r[i]| <= cap
  {
  }

  /** The source's padding loop: `push` the filler until there are `atLeast` items. */
  method PadWithNotSpecified(items: seq<string>, atLeast: nat) returns (padded: seq<string>)
    ensures |padded| == Max(|items|, atLeast)
    ensures forall i :: 0 <= i < |padded| ==> padded[i] == if i < |items| then items[i] else NotSpecified
  {
    padded := items;
    while |padded| < atLeast
      invariant |items| <= |padded| <= Max(|items|, atLeast)
      invariant forall i :: 0 <= i < |padded| ==> padded[i] == if i < |items| then items[i] else NotSpecified
      decreases atLeast - |padded|
    {
      padded := padded + [NotSpecified];
    }
  }

  /** Padding then cutting is `Filled`. */
  method FillList(cleaned: seq<string>, lo: nat, hi: nat) returns (r: seq<string>)
    requires lo <= hi
    ensures r == Filled(cleaned, lo, hi)
  {
    var padded := PadWithNotSpecified(cleaned, lo);
    r := Take(padded, hi);
    assert |r| == |Filled(cleaned, lo, hi)|;
  }

  /** The summary normalisation of `generateAnalyzeSummary`. `None` is the `TypeError`
      raised when the decoded response is `null`. */
  method NormalizeSummary(parsed: Value) returns (bullets: Option<seq<string>>)
    ensures bullets.None? <==> parsed.Null? || parsed.Undefined?
    ensures bullets.Some? ==>
              bullets.value == Filled(CleanItems(ItemsOrEmpty(Field(parsed, "summaryBullets").value), 140), 3, 6)
    ensures bullets.Some? ==>
              3 <= |bullets.value| <= 6 && forall i :: 0 <= i < |bullets.value| ==> bullets.value[i] != [] && |bullets.value[i]| <= 140
  {
    var field := Field(parsed, "summaryBullets");
    if field.None? {
      return None;
    }
    var normalized := CleanItems(ItemsOrEmpty(field.value), 140);
    var finalBullets := FillList(normalized, 3, 6);
    FilledBounds(normalized, 3, 6, 140);
    return Some(finalBullets);
  }

  /** The explanation normalisation of `generateExplainClause`. */
  method NormalizeExplain(parsed: Value) returns (r: Option<ExplainResult>)
    ensures r.None? <==> parsed.Null? || parsed.Undefined?
    ensures r.Some? ==>
              r.value == ApplyExplainPostValidation(
                Cap(TrimmedOrNotSpecified(Field(parsed, "explanation").value), 700),
                Filled(CleanItems(ItemsOrEmpty(Field(parsed, "keyPoints").value), 120), 2, 6),
                Filled(CleanItems(ItemsOrEmpty(Field(parsed, "questionsToAsk").value), 120), 2, 6))
    ensures r.Some? ==> ExplainBounds(r.value)
  {
    var explanationField := Field(parsed, "explanation");
    if explanationField.None? {
      return None;
    }
    var explanation := TrimmedOrNotSpecified(explanationField.value);
    FilledBounds(CleanItems(ItemsOrEmpty(Field(parsed, "keyPoints").value), 120), 2, 6, 120);
    FilledBounds(CleanItems(ItemsOrEmpty(Field(parsed, "questionsToAsk").value), 120), 2, 6, 120);
    var keyPoints := CleanItems(ItemsOrEmpty(Field(parsed, "keyPoints").value), 120);
    var questionsToAsk := CleanItems(ItemsOrEmpty(Field(parsed, "questionsToAsk").value), 120);
    keyPoints := FillList(keyPoints, 2, 6);
    questionsToAsk := FillList(questionsToAsk, 2, 6);
    var trimmedExplanation := Cap(explanation, 700);
    PostValidationBounds(trimmedExplanation, keyPoints, questionsToAsk);
    var normalized := ApplyExplainPostValidation(trimmedExplanation, keyPoints, questionsToAsk);
    return Some(normalized);
  }

  /** Post-validation keeps the bounds of a filled explanation. */
  lemma PostValidationBounds(explanation: string, keyPoints: seq<string>, questionsToAsk: seq<string>)
    requires 0 < |explanation| <= 700
    requires 2 <= |keyPoints| <= 6 && forall i :: 0 <= i < |keyPoints| ==> 0 < |keyPoints[i]| <= 120
    requires 2 <= |questionsToAsk| <= 6 && forall i :: 0 <= i < |questionsToAsk| ==> 0 < |questionsToAsk[i]| <= 120
    ensures ExplainBounds(ApplyExplainPostValidation(explanation, keyPoints, questionsToAsk))
  {
    FallbacksWithinBounds();
  }

  /** A non-empty explanation of at most 700 characters, and 2 to 6 key points and
      questions of at most 120 characters each. */
  predicate ExplainBounds(r: ExplainResult) {
    && 0 < |r.explanation| <= 700
    && 2 <= |r.keyPoints| <= 6 && (forall i :: 0 <= i < |r.keyPoints| ==> 0 < |r.keyPoints[i]| <= 120)
    && 2 <= |r.questionsToAsk| <= 6 && (forall i :: 0 <= i < |r.questionsToAsk| ==> 0 < |r.questionsToAsk[i]| <= 120)
  }

  lemma FallbacksWithinBounds()
    ensures |FallbackKeyPoints| == 3 && forall i :: 0 <= i < 3 ==> 0 < |FallbackKeyPoints[i]| <= 120
    ensures |FallbackQuestions| == 3 && forall i :: 0 <= i < 3 ==> 0 < |FallbackQuestions[i]| <= 120
  {
  }

  /** The keywords searched for grounding in a question-and-answer response. */
  const EarlyTerminationKeywords: seq<string> := ["early termination fee", "termination fee", "early termination"]

  /** The phrase a preferred grounding snippet names. */
  const EarlyTerminationFee: string := "early termination fee"

  /** The question is about leaving the lease early. */
  predicate LeavingEarlyQuestion(question: string) {
    var q := Lower(question);
    Includes(q, "leave early") || Includes(q, "early termination") || Includes(q, "terminate early")
    || Includes(q, "break the lease") || Includes(q, "breaking the lease")
  }

  /** The lease text mentions early termination. */
  predicate MentionsEarlyTermination(text: string) {
    var t := Lower(text);
    Includes(t, "early termination") || Includes(t, "termination fee")
  }

  /** The question-and-answer normalisation of `generateLeaseQa`. */
  method NormalizeQa(parsed: Value, question: string, text: string) returns (r: Option<QaResult>)
    ensures r.None? <==> parsed.Null? || parsed.Undefined?
    ensures r.Some? ==>
              var qa := r.value;
              && qa.answer == Cap(TrimmedOrNotSpecified(Field(parsed, "answer").value), 900)
              && 0 < |qa.answer| <= 900
              && qa.confidence == (if LeavingEarlyQuestion(question) && MentionsEarlyTermination(text) then High
                                   else AsConfidence(Field(parsed, "confidence").value))
              && |qa.basedOn| <= 5
              && (forall i :: 0 <= i < |qa.basedOn| ==> |qa.basedOn[i]| <= 120)
              && (Trim(text) != [] ==> qa.basedOn != [])
              && (Includes(Lower(qa.answer), NotSpecifiedLower) ==> qa.basedOn != [])
    ensures r.Some? ==>
              QaGroundingIs(r.value.basedOn, Take(CleanItems(ItemsOrEmpty(Field(parsed, "basedOn").value), 120), 5),
                            Includes(Lower(r.value.answer), NotSpecifiedLower), question, text)
  {
    var answerField := Field(parsed, "answer");
    if answerField.None? {
      return None;
    }
    var answer := TrimmedOrNotSpecified(answerField.value);
    var confidence := AsConfidence(Field(parsed, "confidence").value);
    var basedOn := CleanItems(ItemsOrEmpty(Field(parsed, "basedOn").value), 120);
    var trimmedAnswer := Cap(answer, 900);

    var normalizedConfidence := confidence;
    if LeavingEarlyQuestion(question) && MentionsEarlyTermination(text) {
      normalizedConfidence := High;
    }
    var normalizedBasedOn := GroundQa(Take(basedOn, 5), Includes(Lower(trimmedAnswer), NotSpecifiedLower), question, text);
    return Some(QaResult(trimmedAnswer, normalizedConfidence, normalizedBasedOn));
  }

  /** What the grounding list `basedOn` of `generateLeaseQa` is, for the cleaned list
      `cleaned` (at most five lines), an answer that is or is not the filler, the
      question and the text. It is bounded, and non-empty over a non-blank text or
      after a filler answer. Without a termination snippet: the cleaned list if it is
      not empty, else the sentinel after a filler answer, else the lease's opening.
      With one: `leased` is the cleaned list, or the snippet when that list is empty
      or holds the filler; an early-leave question then prefers the snippet when it
      names the fee, and otherwise puts it first unless an item already names the fee. */
  predicate QaGroundingIs(basedOn: seq<string>, cleaned: seq<string>, fillerAnswer: bool, question: string, text: string) {
    var snippets := BasedOnSnippets(text, EarlyTerminationKeywords);
    var earlyLeave := LeavingEarlyQuestion(question) && MentionsEarlyTermination(text);
    var leased := if cleaned == [] || IncludesPhrase(cleaned, NotSpecifiedLower) then snippets else cleaned;
    && Grounding(basedOn)
    && (Trim(text) != [] ==> basedOn != [])
    && (fillerAnswer ==> basedOn != [])
    && (snippets == [] && cleaned != [] ==> basedOn == cleaned)
    && (snippets == [] && cleaned == [] && fillerAnswer ==> basedOn == [NoClauseFound])
    && (snippets == [] && cleaned == [] && !fillerAnswer
        ==> basedOn == if Trim(text) != [] then [Trim(Slice(text, 0, 120))] else [])
    && (snippets != [] && !earlyLeave ==> basedOn == leased)
    && (snippets != [] && earlyLeave && IncludesPhrase(snippets, EarlyTerminationFee) ==> basedOn == snippets)
    && (snippets != [] && earlyLeave && !IncludesPhrase(snippets, EarlyTerminationFee)
        ==> basedOn == if IncludesPhrase(leased, EarlyTerminationFee) then leased else Take(snippets + leased, 5))
  }

  /** The grounding steps of `generateLeaseQa`, from the cleaned list to the list
      returned. */
  method GroundQa(cleaned: seq<string>, fillerAnswer: bool, question: string, text: string) returns (basedOn: seq<string>)
    requires Grounding(cleaned)
    ensures QaGroundingIs(basedOn, cleaned, fillerAnswer, question, text)
  {
    BasedOnSnippetsShape(text, EarlyTerminationKeywords);
    var normalizedBasedOn := GroundOnLease(cleaned, text);
    if fillerAnswer {
      if |normalizedBasedOn| == 0 {
        normalizedBasedOn := [NoClauseFound];
      }
    }
    if LeavingEarlyQuestion(question) && MentionsEarlyTermination(text) {
      normalizedBasedOn := PreferEarlyTermination(normalizedBasedOn, text);
    }
    normalizedBasedOn := GroundOnOpening(normalizedBasedOn, text);
    basedOn := Take(normalizedBasedOn, 5);
  }

  /** The last grounding step of `generateLeaseQa`: an empty list over a lease that is
      not blank gets the lease's trimmed first 120 characters. */
  method GroundOnOpening(basedOn: seq<string>, text: string) returns (grounded: seq<string>)
    requires Grounding(basedOn)
    ensures Grounding(grounded)
    ensures basedOn != [] ==> grounded == basedOn
    ensures basedOn == [] && Trim(text) != [] ==> grounded == [Trim(Slice(text, 0, 120))]
    ensures grounded != [] <==> basedOn != [] || Trim(text) != []
  {
    grounded := basedOn;
    if |grounded| == 0 && Trim(text) != [] {
      grounded := [Trim(Slice(text, 0, 120))];
    }
  }

  /** At most five grounding lines of at most 120 characters each. */
  predicate Grounding(lines: seq<string>) {
    |lines| <= 5 && forall i :: 0 <= i < |lines| ==> |lines[i]| <= 120
  }

  /** The first grounding step of `generateLeaseQa`: an empty list, or one holding the
      filler, is replaced by the lease's early-termination snippet when there is one. */
  method GroundOnLease(basedOn: seq<string>, text: string) returns (grounded: seq<string>)
    requires Grounding(basedOn)
    ensures Grounding(grounded)
    ensures basedOn != [] && !IncludesPhrase(basedOn, NotSpecifiedLower) ==> grounded == basedOn
    ensures grounded != [] <==> basedOn != [] || BasedOnSnippets(text, EarlyTerminationKeywords) != []
    ensures var snippets := BasedOnSnippets(text, EarlyTerminationKeywords);
            grounded == if (basedOn == [] || IncludesPhrase(basedOn, NotSpecifiedLower)) && snippets != []
                        then snippets else basedOn
  {
    BasedOnSnippetsShape(text, EarlyTerminationKeywords);
    grounded := basedOn;
    var hasNotSpecified := IncludesPhrase(basedOn, NotSpecifiedLower);
    if |basedOn| == 0 || hasNotSpecified {
      var snippets := ExtractBasedOnSnippets(text, EarlyTerminationKeywords);
      if |snippets| > 0 {
        grounded := Take(snippets, 5);
      }
    }
  }

  /** The early-leave step of `generateLeaseQa`: a snippet naming the early termination
      fee replaces the list; otherwise the snippet is put first unless an item already
      names the fee. */
  method PreferEarlyTermination(basedOn: seq<string>, text: string) returns (preferred: seq<string>)
    requires Grounding(basedOn)
    ensures Grounding(preferred)
    ensures preferred != [] <==> basedOn != [] || BasedOnSnippets(text, EarlyTerminationKeywords) != []
    ensures BasedOnSnippets(text, EarlyTerminationKeywords) == [] ==> preferred == basedOn
    ensures var snippets := BasedOnSnippets(text, EarlyTerminationKeywords);
            snippets != [] && (IncludesPhrase(snippets, EarlyTerminationFee) || basedOn == []) ==> preferred == snippets
    ensures var snippets := BasedOnSnippets(text, EarlyTerminationKeywords);
            snippets != [] && !IncludesPhrase(snippets, EarlyTerminationFee) && basedOn != []
            ==> preferred == if IncludesPhrase(basedOn, EarlyTerminationFee) then basedOn else Take(snippets + basedOn, 5)
  {
    BasedOnSnippetsShape(text, EarlyTerminationKeywords);
    preferred := basedOn;
    var snippets := ExtractBasedOnSnippets(text, EarlyTerminationKeywords);
    if |snippets| > 0 {
      var hasEarlySnippet := IncludesPhrase(snippets, EarlyTerminationFee);
      if hasEarlySnippet {
        preferred := Take(snippets, 5);
      } else if |basedOn| == 0 {
        preferred := Take(snippets, 5);
      } else if !IncludesPhrase(basedOn, EarlyTerminationFee) {
        preferred := Take(Take(snippets, 1) + basedOn, 5);
      }
    }
  }
}
