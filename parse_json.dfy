/** `parsePossiblyFencedJson`: the model's reply is trimmed, a Markdown code fence
    around it is removed, and it is parsed; on failure the text from the first `{` to
    the last `}` is parsed once more, and a second failure is an error. `JSON.parse` is
    the parameter `parse`, which gives `None` where it throws. */
module ParseJson {
  import opened Wrappers
  import opened Text
  import opened JsValue

  /** `JSON.parse`: the decoded value, or `None` where it throws. */
  type Parser = string -> Option<Value>

  /** The opening (and closing) line of a Markdown code fence. */
  const Fence: string := "```"

  /** The message of the error raised when neither attempt parses. */
  const InvalidJson: string := "Invalid JSON from Gemini"

  /** The lines kept from a fenced reply: all but the first, and all but the last
      when the last trims to the fence. */
  function FenceBody(lines: seq<string>): (r: seq<string>)
    requires |lines| >= 1
    ensures r == lines[1..] || (|lines| >= 2 && r == lines[1..|lines| - 1])
  {
    var rest := lines[1..];
    if |rest| > 0 && Trim(rest[|rest| - 1]) == Fence then rest[..|rest| - 1] else rest
  }

  /** The reply with surrounding whitespace and any code fence removed. */
  function Unfenced(raw: string): (s: string)
    ensures NoOuterSpace(s)
  {
    var t := Trim(raw);
    if StartsWith(t, Fence) then Trim(Join(FenceBody(Split(t, '\n')), "\n")) else t
  }

  /** The retry candidate: the text from the first `{` through the last `}` when the
      last comes after the first, and the text itself otherwise. */
  function Candidate(s: string): string {
    var first := IndexOf(s, "{");
    var last := LastIndexOfChar(s, '}');
    if first != -1 && last != -1 && last > first then s[first..last + 1] else s
  }

  /** The fence-stripping step, on the array of lines the source shifts and pops. */
  method StripFence(raw: string) returns (s: string)
    ensures s == Unfenced(raw)
  {
    s := Trim(raw);
    if StartsWith(s, Fence) {
      var lines := Split(s, '\n');
      ghost var all := lines;
      lines := lines[1..];
      if |lines| > 0 && Trim(lines[|lines| - 1]) == Fence {
        lines := lines[..|lines| - 1];
      }
      assert lines == FenceBody(all);
      s := Trim(Join(lines, "\n"));
    }
  }

  /** `parsePossiblyFencedJson(raw)`: the first value that parses, or the error. */
  method ParsePossiblyFencedJson(raw: string, parse: Parser) returns (r: Result<Value, string>)
    ensures parse(Unfenced(raw)).Some? ==> r == Success(parse(Unfenced(raw)).value)
    ensures parse(Unfenced(raw)).None? && parse(Candidate(Unfenced(raw))).Some? ==>
              r == Success(parse(Candidate(Unfenced(raw))).value)
    ensures r.Failure? <==> parse(Unfenced(raw)).None? && parse(Candidate(Unfenced(raw))).None?
    ensures r.Failure? ==> r.error == InvalidJson
  {
    var s := StripFence(raw);
    var parsed := parse(s);
    if parsed.Some? {
      return Success(parsed.value);
    }
    var first := IndexOf(s, "{");
    var last := LastIndexOfChar(s, '}');
    if first != -1 && last != -1 && last > first {
      s := s[first..last + 1];
    }
    parsed := parse(s);
    if parsed.Some? {
      return Success(parsed.value);
    }
    return Failure(InvalidJson);
  }

  // ------------------------------------------------------------------ lemmas

  /** A reply that does not start with the fence, once trimmed, is only trimmed. */
  lemma UnfencedPlain(raw: string)
    requires !StartsWith(Trim(raw), Fence)
    ensures Unfenced(raw) == Trim(raw)
  {
  }

  /** A string without the separator splits into itself alone. */
  lemma {:induction false} SplitWithoutSeparator(s: string, c: char)
    requires c !in s
    ensures Split(s, c) == [s]
  {
    if |s| > 0 {
      SplitWithoutSeparator(s[1..], c);
      assert s == [s[0]] + s[1..];
    }
  }

  /** A fenced reply on a single line loses everything: the line is the one dropped. */
  lemma FencedOneLine(raw: string)
    requires StartsWith(Trim(raw), Fence) && '\n' !in Trim(raw)
    ensures Unfenced(raw) == ""
  {
    SplitWithoutSeparator(Trim(raw), '\n');
  }

  /** So it always fails when the empty string does not parse, as `JSON.parse("")`
      does not. */
  lemma FencedOneLineFails(raw: string, parse: Parser)
    requires StartsWith(Trim(raw), Fence) && '\n' !in Trim(raw)
    requires parse("").None?
    ensures parse(Unfenced(raw)).None? && parse(Candidate(Unfenced(raw))).None?
  {
    FencedOneLine(raw);
  }

  /** A fenced reply: an opening line `info` (such as "```json"), a body of any number
      of lines and a closing line that trims to the fence gives back the trimmed body. */
  lemma FencedBody(raw: string, info: string, body: string, closing: string)
    requires Trim(raw) == Fence + info + "\n" + body + "\n" + closing
    requires '\n' !in info && '\n' !in closing && Trim(closing) == Fence
    ensures Unfenced(raw) == Trim(body)
  {
    var t := Trim(raw);
    assert StartsWith(t, Fence) by {
      assert t[..|Fence|] == Fence;
    }
    var lines := Split(t, '\n');
    FencedLines(t, info, body, closing);
    assert FenceBody(lines) == Split(body, '\n');
    JoinSplit(body, '\n');
  }

  /** The lines of a fenced reply: the opening line, the body's lines, the closing line. */
  lemma FencedLines(t: string, info: string, body: string, closing: string)
    requires t == Fence + info + "\n" + body + "\n" + closing
    requires '\n' !in info && '\n' !in closing
    ensures Split(t, '\n') == [Fence + info] + Split(body, '\n') + [closing]
  {
    assert '\n' !in Fence + info;
    SplitWithoutSeparator(Fence + info, '\n');
    SplitWithoutSeparator(closing, '\n');
    assert t == (Fence + info) + ['\n'] + (body + ['\n'] + closing);
    SplitAround(Fence + info, body + ['\n'] + closing, '\n');
    SplitAround(body, closing, '\n');
  }

  /** A fenced reply whose body has no closing fence keeps every line but the first. */
  lemma FencedUnclosed(raw: string, info: string, body: string)
    requires Trim(raw) == Fence + info + "\n" + body
    requires '\n' !in info && '\n' !in body && Trim(body) != Fence
    ensures Unfenced(raw) == Trim(body)
  {
    var t := Trim(raw);
    assert StartsWith(t, Fence) by {
      assert t[..|Fence|] == Fence;
    }
    assert '\n' !in Fence + info;
    SplitWithoutSeparator(Fence + info, '\n');
    SplitWithoutSeparator(body, '\n');
    assert t == (Fence + info) + ['\n'] + body;
    SplitAround(Fence + info, body, '\n');
    assert Split(t, '\n') == [Fence + info, body];
  }

  /** Some `{` comes before some `}`. */
  predicate HasBracePair(s: string) {
    exists i, j :: 0 <= i < j < |s| && s[i] == '{' && s[j] == '}'
  }

  /** When some `{` comes before some `}`, the retry candidate starts with `{`, ends
      with `}` and is cut from the text; otherwise it is the text itself. */
  lemma CandidateShape(s: string)
    ensures var c := Candidate(s);
            HasBracePair(s) ==>
              |c| >= 2 && c[0] == '{' && c[|c| - 1] == '}' && exists k: nat :: OccursAt(s, c, k)
    ensures !HasBracePair(s) ==> Candidate(s) == s
  {
    var first := IndexOf(s, "{");
    var last := LastIndexOfChar(s, '}');
    if first != -1 && last != -1 && last > first {
      var f: nat := first;
      assert s[f..f + 1] == "{";
      assert s[f] == '{' && s[last] == '}';
      assert HasBracePair(s);
    }
    if HasBracePair(s) {
      var i, j :| 0 <= i < j < |s| && s[i] == '{' && s[j] == '}';
      assert OccursAt(s, "{", i) by {
        assert s[i..i + 1] == "{";
      }
      assert first != -1 && first <= i;
      assert last >= j;
      var f: nat := first;
      assert s[f..f + 1] == "{";
      assert OccursAt(s, Candidate(s), f);
    }
  }

  /** A trimmed reply without a fence is parsed as it is. */
  lemma PlainReplyUnchanged(raw: string)
    requires NoOuterSpace(raw) && !StartsWith(raw, Fence)
    ensures Unfenced(raw) == raw
  {
    TrimNoOuterSpace(raw);
  }
}
