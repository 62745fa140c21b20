/** `detectFlags` of `backend/src/detectFlags.ts`: for each rule of the table, in order,
    the earliest case-insensitive keyword occurrence and the first regular-expression
    match are found, reconciled into one span, and turned into a flag whose evidence
    is the snippet around that span. */
module Detect {
  import opened Wrappers
  import opened Text
  import opened Snippet
  import opened Flags

  /** What running a rule's regular expression (compiled with the `i` flag) on the
      original text gives: no match, an exception, or a match at `index` whose matched
      text is `length` characters long. */
  datatype RegexOutcome = NoMatch | Threw | Matched(index: nat, length: nat)

  /** `new RegExp(pattern, "i").exec(text)`: regular-expression semantics are not part
      of this model, so the engine is a parameter. */
  type Exec = (string, string) -> RegexOutcome

  /** A regular-expression engine reports matches that lie inside the text. */
  ghost predicate ExecWithin(exec: Exec, text: string) {
    forall pattern :: exec(pattern, text).Matched? ==> exec(pattern, text).index + exec(pattern, text).length <= |text|
  }

  /** The best keyword so far: its start in the lower-cased text (-1 for none) and its
      length. */
  datatype Best = Best(start: int, len: nat)

  /** First occurrence of a keyword in the lower-cased text, both sides lower-cased. */
  function Occurrence(lower: string, keyword: string): int {
    IndexOf(lower, Lower(keyword))
  }

  /** One step of the keyword loop: a found keyword replaces the best one when there is
      none yet, when it occurs earlier, or when it occurs at the same offset and is
      longer. */
  function Step(best: Best, idx: int, len: nat): Best {
    if idx >= 0 && (best.start == -1 || idx < best.start || (idx == best.start && len > best.len))
    then Best(idx, len)
    else best
  }

  /** The keyword loop over `keywords`, in order. */
  function KeywordScan(lower: string, keywords: seq<string>): (b: Best)
    ensures b.start >= -1
    ensures b.start >= 0 ==> b.start + b.len <= |lower|
  {
    if |keywords| == 0 then Best(-1, 0)
    else
      var last := keywords[|keywords| - 1];
      Step(KeywordScan(lower, keywords[..|keywords| - 1]), Occurrence(lower, last), |Lower(last)|)
  }

  /** `b` is the earliest keyword occurrence, the longest keyword among those found at
      that offset, and -1 exactly when no keyword occurs. */
  predicate IsBestKeyword(lower: string, keywords: seq<string>, b: Best) {
    && (b.start == -1 <==> forall k :: 0 <= k < |keywords| ==> Occurrence(lower, keywords[k]) == -1)
    && (b.start >= 0 ==>
          && (exists k :: 0 <= k < |keywords| && Occurrence(lower, keywords[k]) == b.start && |keywords[k]| == b.len)
          && (forall k :: 0 <= k < |keywords| && Occurrence(lower, keywords[k]) >= 0 ==>
                b.start <= Occurrence(lower, keywords[k])
                && (Occurrence(lower, keywords[k]) == b.start ==> |keywords[k]| <= b.len)))
    && (b.start == -1 ==> b.len == 0)
  }

  /** The keyword loop finds the earliest keyword, preferring the longer one on a tie. */
  lemma {:induction false} KeywordScanIsBest(lower: string, keywords: seq<string>)
    ensures IsBestKeyword(lower, keywords, KeywordScan(lower, keywords))
  {
    if |keywords| > 0 {
      var init := keywords[..|keywords| - 1];
      KeywordScanIsBest(lower, init);
      var last := keywords[|keywords| - 1];
      var prev := KeywordScan(lower, init);
      var b := KeywordScan(lower, keywords);
      assert |Lower(last)| == |last|;
      forall k | 0 <= k < |keywords| - 1
        ensures keywords[k] == init[k]
      {
      }
      if b.start >= 0 {
        if b == prev {
          var k :| 0 <= k < |init| && Occurrence(lower, init[k]) == b.start && |init[k]| == b.len;
          assert keywords[k] == init[k];
        } else {
          assert Occurrence(lower, keywords[|keywords| - 1]) == b.start;
        }
      }
    }
  }

  /** The regular-expression span of a rule, `(-1, -1)` when the rule has no pattern,
      when the pattern is empty, when it does not match or when it throws. */
  function RegexScan(def: FlagDef, text: string, exec: Exec): (r: (int, int))
    requires ExecWithin(exec, text)
    ensures r.0 == -1 <==> r.1 == -1
    ensures r.0 != -1 <==> def.regex.Some? && def.regex.value != [] && exec(def.regex.value, text).Matched?
    ensures r.0 != -1 ==> 0 <= r.0 <= r.1 <= |text|
  {
    if def.regex.Some? && def.regex.value != [] then
      match exec(def.regex.value, text)
      case Matched(index, length) => (index as int, index + length as int)
      case _ => (-1, -1)
    else (-1, -1)
  }

  /** The span reported for a rule, or `None` when neither a keyword nor the pattern
      matched: the keyword span wins unless the regular-expression match starts at
      least 30 characters before it. */
  function Reconcile(kw: Best, rx: (int, int)): Option<(int, int)> {
    if kw.start == -1 && rx.0 == -1 then None
    else if kw.start != -1 && rx.0 == -1 then Some((kw.start, kw.start + kw.len))
    else if kw.start == -1 && rx.0 != -1 then Some(rx)
    else if !(rx.0 <= kw.start - 30) then Some((kw.start, kw.start + kw.len))
    else Some(rx)
  }

  /** The span of a rule over a text. */
  function RuleSpan(def: FlagDef, text: string, exec: Exec): Option<(int, int)>
    requires ExecWithin(exec, text)
  {
    Reconcile(KeywordScan(Lower(text), def.keywords), RegexScan(def, text, exec))
  }

  /** The flag a rule yields: its own fields and the snippet around its span. */
  function RuleFlag(def: FlagDef, text: string, exec: Exec): Option<Flag>
    requires ExecWithin(exec, text)
  {
    match RuleSpan(def, text, exec)
    case None => None
    case Some(span) =>
      if span.0 >= 0 && span.1 >= 0 then
        Some(Flag(def.id, def.title, def.severity, Snippet.Snippet(text, span.0, span.1), def.whyItMatters))
      else None
  }

  /** One rule's outcome over `text`, as a function of the rule. */
  function Rule(text: string, exec: Exec): (f: FlagDef -> Option<Flag>)
    requires ExecWithin(exec, text)
    ensures forall def :: f(def) == RuleFlag(def, text, exec)
  {
    (def: FlagDef) => RuleFlag(def, text, exec)
  }

  /** `f` applied to each element of `xs`. */
  function Map<A, B>(xs: seq<A>, f: A -> B): (r: seq<B>)
    ensures |r| == |xs|
    ensures forall i :: 0 <= i < |xs| ==> r[i] == f(xs[i])
  {
    seq(|xs|, i requires 0 <= i < |xs| => f(xs[i]))
  }

  /** Mapping one more element appends its image. */
  lemma MapSnoc<A, B>(xs: seq<A>, d: nat, f: A -> B)
    requires d < |xs|
    ensures Map(xs[..d + 1], f) == Map(xs[..d], f) + [f(xs[d])]
  {
    assert xs[..d + 1][..d] == xs[..d];
  }

  /** What each rule of `defs` yields, position by position. */
  function Outcomes(defs: seq<FlagDef>, text: string, exec: Exec): (r: seq<Option<Flag>>)
    requires ExecWithin(exec, text)
    ensures |r| == |defs|
    ensures forall i :: 0 <= i < |defs| ==> r[i] == RuleFlag(defs[i], text, exec)
  {
    Map(defs, Rule(text, exec))
  }

  /** The present values of `xs`, in order. */
  function Somes<T>(xs: seq<Option<T>>): (r: seq<T>)
    ensures |r| <= |xs|
  {
    if |xs| == 0 then []
    else
      var prev := Somes(xs[..|xs| - 1]);
      match xs[|xs| - 1]
      case None => prev
      case Some(v) => prev + [v]
  }

  /** Appending one outcome appends its value, if any. */
  lemma SomesSnoc<T>(xs: seq<Option<T>>, x: Option<T>)
    ensures Somes(xs + [x]) == Somes(xs) + (if x.Some? then [x.value] else [])
  {
    assert (xs + [x])[..|xs|] == xs;
  }

  /** The positions of the present values of `xs`, in order. */
  function Positions<T>(xs: seq<Option<T>>): seq<nat> {
    if |xs| == 0 then []
    else
      var prev := Positions(xs[..|xs| - 1]);
      if xs[|xs| - 1].Some? then prev + [|xs| - 1] else prev
  }

  /** The flags of the rules `defs`, in order. */
  function Detected(defs: seq<FlagDef>, text: string, exec: Exec): seq<Flag>
    requires ExecWithin(exec, text)
  {
    Somes(Outcomes(defs, text, exec))
  }

  /** The positions in `defs` of the rules that fire, in increasing order. */
  function Fired(defs: seq<FlagDef>, text: string, exec: Exec): seq<nat>
    requires ExecWithin(exec, text)
  {
    Positions(Outcomes(defs, text, exec))
  }

  /** The keyword loop of `detectFlags`: the earliest keyword in `lower`, the longer
      one on a tie, as a start offset (-1 for none) and a length. */
  method ScanKeywords(lower: string, keywords: seq<string>) returns (bestKwStart: int, bestKwLen: nat)
    ensures Best(bestKwStart, bestKwLen) == KeywordScan(lower, keywords)
    ensures bestKwStart >= -1
  {
    bestKwStart := -1;
    bestKwLen := 0;
    for j := 0 to |keywords|
      invariant Best(bestKwStart, bestKwLen) == KeywordScan(lower, keywords[..j])
    {
      assert keywords[..j + 1][..j] == keywords[..j];
      var kwLower := Lower(keywords[j]);
      var idx := IndexOf(lower, kwLower);
      if idx >= 0 && (bestKwStart == -1 || idx < bestKwStart || (idx == bestKwStart && |kwLower| > bestKwLen)) {
        bestKwStart := idx;
        bestKwLen := |kwLower|;
      }
    }
    assert keywords[..|keywords|] == keywords;
  }

  /** The pattern step of `detectFlags`: the span of the first match, `(-1, -1)` when
      the rule has no pattern, the match fails or the pattern throws. */
  method RunRegex(def: FlagDef, text: string, exec: Exec) returns (regexStart: int, regexEnd: int)
    requires ExecWithin(exec, text)
    ensures (regexStart, regexEnd) == RegexScan(def, text, exec)
  {
    regexStart := -1;
    regexEnd := -1;
    if def.regex.Some? && def.regex.value != [] {
      var outcome := exec(def.regex.value, text);
      if outcome.Matched? {
        regexStart := outcome.index;
        regexEnd := regexStart + outcome.length;
      }
    }
  }

  /** The reconciliation step of `detectFlags` once a keyword or the pattern matched. */
  method ChooseSpan(bestKwStart: int, bestKwLen: nat, regexStart: int, regexEnd: int)
    returns (matchStart: int, matchEnd: int)
    requires bestKwStart != -1 || regexStart != -1
    ensures Reconcile(Best(bestKwStart, bestKwLen), (regexStart, regexEnd)) == Some((matchStart, matchEnd))
  {
    if bestKwStart != -1 && regexStart == -1 {
      matchStart := bestKwStart;
      matchEnd := bestKwStart + bestKwLen;
    } else if bestKwStart == -1 && regexStart != -1 {
      matchStart := regexStart;
      matchEnd := regexEnd;
    } else {
      var regexMuchEarlier := regexStart <= bestKwStart - 30;
      if !regexMuchEarlier {
        matchStart := bestKwStart;
        matchEnd := bestKwStart + bestKwLen;
      } else {
        matchStart := regexStart;
        matchEnd := regexEnd;
      }
    }
  }

  /** The body of the rule loop of `detectFlags` for one rule: keyword scan, regular
      expression, reconciliation and snippet; `None` where the source `continue`s. */
  method DetectRule(def: FlagDef, text: string, lower: string, exec: Exec) returns (flag: Option<Flag>)
    requires ExecWithin(exec, text)
    requires lower == Lower(text)
    ensures flag == RuleFlag(def, text, exec)
  {
    var bestKwStart, bestKwLen := ScanKeywords(lower, def.keywords);
    var regexStart, regexEnd := RunRegex(def, text, exec);
    if bestKwStart == -1 && regexStart == -1 {
      return None;
    }
    var matchStart, matchEnd := ChooseSpan(bestKwStart, bestKwLen, regexStart, regexEnd);
    var snippet := ExtractSnippet(text, matchStart, matchEnd);
    flag := Some(Flag(def.id, def.title, def.severity, snippet, def.whyItMatters));
  }

  /** `detectFlags(text)`, with the rule table as the parameter `defs` (the source
      reads `FLAG_DEFS`, see `TableFlags`): at most one flag per rule, in table order. */
  method DetectFlags(defs: seq<FlagDef>, text: string, exec: Exec) returns (results: seq<Flag>)
    requires ExecWithin(exec, text)
    ensures results == Detected(defs, text, exec)
    ensures |results| <= |defs|
  {
    var lower := Lower(text);
    results := [];
    ghost var outcomes: seq<Option<Flag>> := [];
    for d := 0 to |defs|
      invariant outcomes == Outcomes(defs[..d], text, exec)
      invariant results == Somes(outcomes)
    {
      var flag := DetectRule(defs[d], text, lower, exec);
      SomesSnoc(outcomes, flag);
      OutcomesSnoc(defs, d, text, exec);
      outcomes := outcomes + [flag];
      if flag.None? {
        continue;
      }
      results := results + [flag.value];
    }
    assert defs[..|defs|] == defs;
  }

  /** The outcomes of one more rule are those before it and its own. */
  lemma OutcomesSnoc(defs: seq<FlagDef>, d: nat, text: string, exec: Exec)
    requires d < |defs| && ExecWithin(exec, text)
    ensures Outcomes(defs[..d + 1], text, exec) == Outcomes(defs[..d], text, exec) + [RuleFlag(defs[d], text, exec)]
  {
    MapSnoc(defs, d, Rule(text, exec));
  }

  // ------------------------------------------------------------------ lemmas

  /** A reported span lies inside the text: keyword offsets from the lower-cased text
      are valid on the original because lower-casing keeps the length. */
  lemma RuleSpanWithin(def: FlagDef, text: string, exec: Exec)
    requires ExecWithin(exec, text)
    ensures RuleSpan(def, text, exec).Some? ==>
              0 <= RuleSpan(def, text, exec).value.0 <= RuleSpan(def, text, exec).value.1 <= |text|
  {
    assert |Lower(text)| == |text|;
  }

  /** A rule yields no flag exactly when no keyword occurs (case-insensitively) and its
      regular expression is absent, empty, does not match or throws. */
  lemma NoFlagIff(def: FlagDef, text: string, exec: Exec)
    requires ExecWithin(exec, text)
    ensures RuleFlag(def, text, exec).None? <==>
              (forall k :: 0 <= k < |def.keywords| ==> Occurrence(Lower(text), def.keywords[k]) == -1)
              && !(def.regex.Some? && def.regex.value != [] && exec(def.regex.value, text).Matched?)
  {
    RuleSpanWithin(def, text, exec);
    KeywordScanIsBest(Lower(text), def.keywords);
  }

  /** With both a keyword and a regular-expression match, the keyword span is used
      unless the regular-expression match starts 30 or more characters earlier. */
  lemma ReconcileBoth(def: FlagDef, text: string, exec: Exec)
    requires ExecWithin(exec, text)
    requires KeywordScan(Lower(text), def.keywords).start >= 0 && RegexScan(def, text, exec).0 >= 0
    ensures var kw := KeywordScan(Lower(text), def.keywords);
            var rx := RegexScan(def, text, exec);
            RuleSpan(def, text, exec) == if rx.0 <= kw.start - 30 then Some(rx) else Some((kw.start, kw.start + kw.len))
  {
  }

  /** The flag of a rule that fires copies the rule's fields, and its evidence is the
      snippet of the reconciled span. */
  lemma RuleFlagFields(def: FlagDef, text: string, exec: Exec)
    requires ExecWithin(exec, text)
    requires RuleSpan(def, text, exec).Some?
    ensures var span := RuleSpan(def, text, exec).value;
            && span.0 >= 0 && span.1 >= 0
            && RuleFlag(def, text, exec) ==
               Some(Flag(def.id, def.title, def.severity, Snippet.Snippet(text, span.0, span.1), def.whyItMatters))
  {
    RuleSpanWithin(def, text, exec);
  }

  /** `Positions` lists, in strictly increasing order, exactly the positions of the
      present values, and `Somes` holds those values in the same order. */
  lemma {:induction false} SomesAtPositions<T>(xs: seq<Option<T>>)
    ensures var ps := Positions(xs);
            var vs := Somes(xs);
            && |ps| == |vs|
            && (forall i :: 0 <= i < |ps| ==> ps[i] < |xs| && xs[ps[i]] == Some(vs[i]))
            && (forall i, j :: 0 <= i < j < |ps| ==> ps[i] < ps[j])
            && (forall r :: 0 <= r < |xs| && xs[r].Some? ==> r in ps)
  {
    if |xs| > 0 {
      var init := xs[..|xs| - 1];
      SomesAtPositions(init);
      assert forall r :: 0 <= r < |init| ==> init[r] == xs[r];
    }
  }

  /** The flags are those of the fired rules, in table order: `Fired` lists strictly
      increasing rule positions, one per flag, and every rule that fires is listed. */
  lemma DetectedFromFired(defs: seq<FlagDef>, text: string, exec: Exec)
    requires ExecWithin(exec, text)
    ensures var fired := Fired(defs, text, exec);
            var flags := Detected(defs, text, exec);
            && |fired| == |flags|
            && (forall i :: 0 <= i < |fired| ==> fired[i] < |defs| && RuleFlag(defs[fired[i]], text, exec) == Some(flags[i]))
            && (forall i, j :: 0 <= i < j < |fired| ==> fired[i] < fired[j])
            && (forall r :: 0 <= r < |defs| && RuleFlag(defs[r], text, exec).Some? ==> r in fired)
  {
    SomesAtPositions(Outcomes(defs, text, exec));
  }

  /** A rule's flag carries the rule's id. */
  lemma RuleFlagId(def: FlagDef, text: string, exec: Exec)
    requires ExecWithin(exec, text)
    ensures RuleFlag(def, text, exec).Some? ==> RuleFlag(def, text, exec).value.id == def.id
  {
  }

  /** Each flag carries the id of the rule it came from. */
  lemma FlagIdsFromRules(defs: seq<FlagDef>, text: string, exec: Exec)
    requires ExecWithin(exec, text)
    ensures var fired := Fired(defs, text, exec);
            var flags := Detected(defs, text, exec);
            |fired| == |flags| &&
            forall i :: 0 <= i < |flags| ==> fired[i] < |defs| && flags[i].id == defs[fired[i]].id
  {
    DetectedFromFired(defs, text, exec);
    var fired := Fired(defs, text, exec);
    var flags := Detected(defs, text, exec);
    forall i | 0 <= i < |flags|
      ensures fired[i] < |defs| && flags[i].id == defs[fired[i]].id
    {
      RuleFlagId(defs[fired[i]], text, exec);
    }
  }

  /** Rules with distinct ids give flags with distinct ids. */
  lemma DistinctFlagIds(defs: seq<FlagDef>, text: string, exec: Exec)
    requires ExecWithin(exec, text)
    requires Distinct(Ids(defs))
    ensures |Detected(defs, text, exec)| <= |defs|
    ensures Distinct(Ids(FlagsAsRules(Detected(defs, text, exec))))
  {
    DetectedFromFired(defs, text, exec);
    FlagIdsFromRules(defs, text, exec);
  }

  /** The flags as rule-shaped records, so that `Ids` applies to them. */
  function FlagsAsRules(flags: seq<Flag>): (r: seq<FlagDef>)
    ensures |r| == |flags|
    ensures forall i :: 0 <= i < |flags| ==> r[i].id == flags[i].id
  {
    seq(|flags|, i requires 0 <= i < |flags| => FlagDef(flags[i].id, flags[i].title, flags[i].severity, [], None, flags[i].whyItMatters))
  }

  /** A text that matches no rule gives no flags. */
  lemma NoMatchNoFlags(defs: seq<FlagDef>, text: string, exec: Exec)
    requires ExecWithin(exec, text)
    requires forall r :: 0 <= r < |defs| ==> RuleFlag(defs[r], text, exec).None?
    ensures Detected(defs, text, exec) == []
  {
    NoneGivesNothing(Outcomes(defs, text, exec));
  }

  lemma {:induction false} NoneGivesNothing<T>(xs: seq<Option<T>>)
    requires forall i :: 0 <= i < |xs| ==> xs[i].None?
    ensures Somes(xs) == []
  {
    if |xs| > 0 {
      NoneGivesNothing(xs[..|xs| - 1]);
    }
  }

  /** Over the rule table: at most ten flags, with pairwise distinct ids. */
  lemma TableFlags(text: string, exec: Exec)
    requires ExecWithin(exec, text)
    ensures |Detected(FlagDefs, text, exec)| <= 10
    ensures Distinct(Ids(FlagsAsRules(Detected(FlagDefs, text, exec))))
  {
    TableIds();
    IdsDistinct();
    DistinctFlagIds(FlagDefs, text, exec);
  }

  /** Keyword matching ignores case on both sides: texts and keywords that lower-case
      alike give the same keyword winner. */
  lemma {:induction false} KeywordScanCaseInsensitive(lower: string, keywords: seq<string>, others: seq<string>)
    requires |keywords| == |others|
    requires forall k :: 0 <= k < |keywords| ==> Lower(keywords[k]) == Lower(others[k])
    ensures KeywordScan(lower, keywords) == KeywordScan(lower, others)
  {
    if |keywords| > 0 {
      var n := |keywords| - 1;
      assert Occurrence(lower, keywords[n]) == Occurrence(lower, others[n]);
      assert |Lower(keywords[n])| == |Lower(others[n])|;
      assert forall k :: 0 <= k < n ==> keywords[..n][k] == keywords[k] && others[..n][k] == others[k];
      KeywordScanCaseInsensitive(lower, keywords[..n], others[..n]);
    }
  }
}
