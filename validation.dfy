/** `isEmpty` and `isValidText`: the request guards of the handlers. `None` stands for
    `null` and `undefined`. */
module Validation {
  import opened Wrappers
  import opened Text
  import opened Trimming

  /** `isEmpty(text)`: absent, or nothing but whitespace. */
  function IsEmpty(text: Option<string>): (r: bool)
    ensures text.None? ==> r
    ensures text == Some("") ==> r
    ensures text.Some? ==> (r <==> AllSpace(text.value, 0, |text.value|))
  {
    match text
    case None => true
    case Some(t) => t == [] || |Trim(t)| == 0
  }

  /** `isValidText(text)`: present and not blank. */
  function IsValidText(text: Option<string>): (r: bool)
    ensures r <==> text.Some? && exists k :: 0 <= k < |text.value| && !IsSpace(text.value[k])
  {
    !IsEmpty(text)
  }

  /** Text that passes the guard keeps at least one character under `safeTrim`. */
  lemma ValidTextSurvivesSafeTrim(text: string, maxChars: nat)
    requires IsValidText(Some(text)) && maxChars > 0
    ensures SafeTrim(text, maxChars) != []
  {
  }
}
