/** `safeTrim`: the trimmed text, cut to a maximum number of characters. */
module Trimming {
  import opened Text

  /** `safeTrim(text, maxChars)`; every caller passes a positive constant limit. */
  function SafeTrim(text: string, maxChars: nat): (r: string)
    ensures text == [] ==> r == []
    ensures |r| <= maxChars
    ensures StartsWith(Trim(text), r)
    ensures |Trim(text)| <= maxChars ==> r == Trim(text)
    ensures |Trim(text)| > maxChars ==> |r| == maxChars
    ensures r == [] || !IsSpace(r[0])
  {
    if text == [] then []
    else
      var trimmed := Trim(text);
      if |trimmed| <= maxChars then trimmed else trimmed[..maxChars]
  }

  /** Cutting can leave a space at the end, so a second call may shorten the result:
      the function is not idempotent. */
  lemma NotIdempotent()
    ensures SafeTrim("a b", 2) == "a "
    ensures SafeTrim(SafeTrim("a b", 2), 2) == "a"
  {
    assert Trim("a b") == "a b" by {
      TrimNoOuterSpace("a b");
    }
    assert Lead("a ") == 0 && Trail("a ") == 1;
  }
}
