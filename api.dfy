/** The decoding half of the frontend's API client: the response body, as decoded by
    `response.json()`, is turned into typed results with defaults. The request itself
    (`postJson`) is not part of this model. `None` stands for the `TypeError` thrown
    when a property of `null` or `undefined` is read. */
module Api {
  import opened Wrappers
  import opened JsValue
  import opened Flags
  import opened Gemini

  /** `safeString(value, fallback)`. */
  function SafeString(value: Value, fallback: string): (r: string)
    ensures value.Str? ==> r == value.s
    ensures !value.Str? ==> r == fallback
  {
    if value.Str? then value.s else fallback
  }

  /** `normalizeSeverity(value)`: the three severities pass, anything else is yellow. */
  function NormalizeSeverity(value: Value): (s: Severity)
    ensures s == Red <==> value == Str("red")
    ensures s == Green <==> value == Str("green")
    ensures s == Yellow <==> value != Str("red") && value != Str("green")
  {
    if value == Str("red") then Red
    else if value == Str("green") then Green
    else Yellow
  }

  /** The decimal digits of `n`, as a template literal prints it. */
  function Decimal(n: nat): (s: string)
    ensures |s| >= 1
    ensures |s| == 1 <==> n < 10
    ensures s[|s| - 1] == '0' + (n % 10) as char
  {
    if n < 10 then ['0' + n as char] else Decimal(n / 10) + ['0' + (n % 10) as char]
  }

  /** Different numbers print differently. */
  lemma {:induction false} DecimalInjective(a: nat, b: nat)
    requires Decimal(a) == Decimal(b)
    ensures a == b
  {
    if a >= 10 && b >= 10 {
      var da, db := Decimal(a), Decimal(b);
      assert Decimal(a / 10) == da[..|da| - 1];
      assert Decimal(b / 10) == db[..|db| - 1];
      DecimalInjective(a / 10, b / 10);
    }
  }

  /** The id given to the flag at `index` that has none. */
  function DefaultFlagId(index: nat): string {
    "flag-" + Decimal(index)
  }

  /** Default ids of different positions differ. */
  lemma DefaultFlagIdsDistinct(i: nat, j: nat)
    requires i != j
    ensures DefaultFlagId(i) != DefaultFlagId(j)
  {
    if DefaultFlagId(i) == DefaultFlagId(j) {
      assert Decimal(i) == DefaultFlagId(i)[5..];
      assert Decimal(j) == DefaultFlagId(j)[5..];
      DecimalInjective(i, j);
    }
  }

  /** The label of a flag that has none. */
  const Unlabeled: string := "Unlabeled clause"

  /** One element of `flags`, at `index`; reading a field of a `null` element throws. */
  function DecodeFlag(item: Value, index: nat): (r: Option<Flag>)
    ensures r.None? <==> item.Null? || item.Undefined?
  {
    if item.Null? || item.Undefined? then None
    else
      Some(Flag(
        SafeString(Field(item, "id").value, DefaultFlagId(index)),
        SafeString(Field(item, "label").value, Unlabeled),
        NormalizeSeverity(Field(item, "severity").value),
        SafeString(Field(item, "evidenceSnippet").value, ""),
        SafeString(Field(item, "whyItMatters").value, "")))
  }

  /** `safeArray(data.flags).map(...)`: every element decoded at its position. */
  function DecodeFlags(items: seq<Value>): (r: Option<seq<Flag>>)
    ensures r.None? <==> exists i :: 0 <= i < |items| && (items[i].Null? || items[i].Undefined?)
    ensures r.Some? ==> |r.value| == |items|
    ensures r.Some? ==> forall i :: 0 <= i < |items| ==> DecodeFlag(items[i], i) == Some(r.value[i])
  {
    if |items| == 0 then Some([])
    else
      var last := |items| - 1;
      match DecodeFlags(items[..last])
      case None => None
      case Some(prev) =>
        match DecodeFlag(items[last], last)
        case None => None
        case Some(flag) => Some(prev + [flag])
  }

  /** `safeArray(value).map((item) => safeString(item, ""))`: one string per element,
      empty for an element that is not a string. */
  function Strings(value: Value): (r: seq<string>)
    ensures |r| == |ItemsOrEmpty(value)|
    ensures forall i :: 0 <= i < |r| ==> r[i] == SafeString(ItemsOrEmpty(value)[i], "")
  {
    var items := ItemsOrEmpty(value);
    seq(|items|, i requires 0 <= i < |items| => SafeString(items[i], ""))
  }

  /** `AnalysisResult`. */
  datatype AnalysisResult = AnalysisResult(summaryBullets: seq<string>, flags: seq<Flag>)

  /** The decoding in `analyzeLease`. */
  function AnalyzeLease(data: Value): (r: Option<AnalysisResult>)
    ensures r.None? <==> data.Null? || data.Undefined? || DecodeFlags(ItemsOrEmpty(Field(data, "flags").value)).None?
  {
    if data.Null? || data.Undefined? then None
    else
      match DecodeFlags(ItemsOrEmpty(Field(data, "flags").value))
      case None => None
      case Some(flags) => Some(AnalysisResult(Strings(Field(data, "summaryBullets").value), flags))
  }

  /** The decoding in `explainClause`. */
  function ExplainClause(data: Value): (r: Option<ExplainResult>)
    ensures r.None? <==> data.Null? || data.Undefined?
  {
    if data.Null? || data.Undefined? then None
    else
      Some(ExplainResult(
        SafeString(Field(data, "explanation").value, ""),
        Strings(Field(data, "keyPoints").value),
        Strings(Field(data, "questionsToAsk").value)))
  }

  /** The decoding in `askQuestion`. */
  function AskQuestion(data: Value): (r: Option<QaResult>)
    ensures r.None? <==> data.Null? || data.Undefined?
  {
    if data.Null? || data.Undefined? then None
    else
      Some(QaResult(
        SafeString(Field(data, "answer").value, ""),
        AsConfidence(Field(data, "confidence").value),
        Strings(Field(data, "basedOn").value)))
  }

  // ------------------------------------------------------------------ lemmas

  /** The flags keep the response's count and order; each has the response's fields
      where they are strings and the defaults where they are not. */
  lemma AnalyzedFlags(data: Value, i: nat)
    requires AnalyzeLease(data).Some?
    requires i < |FlagItems(data)|
    ensures |AnalyzeLease(data).value.flags| == |FlagItems(data)|
    ensures var item := FlagItems(data)[i];
            item.Obj? ==>
              AnalyzeLease(data).value.flags[i].id ==
                if "id" in item.fields && item.fields["id"].Str? then item.fields["id"].s else DefaultFlagId(i)
    ensures !FlagItems(data)[i].Obj? ==>
              AnalyzeLease(data).value.flags[i] == Flag(DefaultFlagId(i), Unlabeled, Yellow, "", "")
  {
    var items := FlagItems(data);
    assert DecodeFlag(items[i], i) == Some(AnalyzeLease(data).value.flags[i]);
  }

  /** The elements of the response's `flags`, or none. */
  function FlagItems(data: Value): seq<Value>
    requires !data.Null? && !data.Undefined?
  {
    ItemsOrEmpty(Field(data, "flags").value)
  }

  /** Flags that arrive without ids get pairwise different ids. */
  lemma DefaultIdsUnique(data: Value, i: nat, j: nat)
    requires AnalyzeLease(data).Some?
    requires i < j < |FlagItems(data)|
    requires !Field(FlagItems(data)[i], "id").value.Str? && !Field(FlagItems(data)[j], "id").value.Str?
    ensures AnalyzeLease(data).value.flags[i].id != AnalyzeLease(data).value.flags[j].id
  {
    var items := FlagItems(data);
    var flags := AnalyzeLease(data).value.flags;
    assert DecodeFlag(items[i], i) == Some(flags[i]);
    assert DecodeFlag(items[j], j) == Some(flags[j]);
    DefaultFlagIdsDistinct(i, j);
  }

  /** Lists keep their length: an element that is not a string becomes `""`. */
  lemma ListsKeepLength(data: Value)
    requires ExplainClause(data).Some?
    ensures |ExplainClause(data).value.keyPoints| == |ItemsOrEmpty(Field(data, "keyPoints").value)|
    ensures |ExplainClause(data).value.questionsToAsk| == |ItemsOrEmpty(Field(data, "questionsToAsk").value)|
    ensures var items := ItemsOrEmpty(Field(data, "keyPoints").value);
            forall i :: 0 <= i < |items| && !items[i].Str? ==> ExplainClause(data).value.keyPoints[i] == ""
  {
  }

  /** The answer's confidence is the response's when it is one of the three, else low. */
  lemma AnsweredConfidence(data: Value)
    requires AskQuestion(data).Some?
    ensures var c := Field(data, "confidence").value;
            AskQuestion(data).value.confidence ==
              if c == Str("medium") then Medium else if c == Str("high") then High else Low
  {
  }
}
