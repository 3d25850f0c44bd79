/**
  The code extraction at the end of `generate_repair_candidate`: the model's reply text is
  stripped, and when it holds a markdown code fence the code between the first and the last
  fence is returned, past a language tag starting with "c".
*/
module RepairModule {
  import opened Strings

  const Fence := "```"

  /** The code the repair module takes from the reply text `reply`. */
  function ExtractCode(reply: string): (r: string)
    ensures r == "" || Trimmed(r)
    ensures !Contains(Strip(reply), Fence) ==> r == Strip(reply)
  {
    FromFenced(Strip(reply))
  }

  /** The code inside the stripped reply `text`: from the start `CodeStart` finds to the last
      fence, when that fence comes after the start; otherwise the whole text. */
  function FromFenced(text: string): (r: string)
    requires text == "" || Trimmed(text)
    ensures r == "" || Trimmed(r)
    ensures !Contains(text, Fence) ==> r == text
  {
    if Contains(text, Fence) then
      var start := CodeStart(text);
      var end := RFind(text, Fence);
      if end > start then Strip(text[start..end]) else text
    else text
  }

  /** Just after the first fence; past the next newline when a "c" tag follows the fence
      (0 when there is no such newline, as `find` then gives -1). */
  function CodeStart(text: string): (start: nat)
    requires Contains(text, Fence)
    ensures start <= |text|
  {
    var after := Find(text, Fence, 0) + |Fence|;
    if StartsWith(text[after..], "c") then Find(text, "\n", after) + 1 else after
  }

  /** `text` is trimmed, starts and ends with a fence, has a "c" right after the first one,
      and its first newline from there on is at `nl`, before the last fence. */
  predicate FencedShape(text: string, nl: nat)
  {
    && Trimmed(text) && StartsWith(text, Fence) && EndsWith(text, Fence)
    && 3 < |text| && text[3] == 'c'
    && Find(text, "\n", 3) == nl && nl + 1 < |text| - 3
  }

  /** A trimmed text between two fences whose first line starts with "c" gives what lies
      between that line and the last fence (here `code` and a newline), stripped. */
  lemma FencedAt(text: string, nl: nat, code: string)
    requires FencedShape(text, nl) && text[nl + 1..|text| - 3] == code + "\n"
    ensures ExtractCode(text) == Strip(code)
  {
    StripTrimmed(text);
    CodeStartAt(text, nl);
    RFindAtEnd(text, Fence);
    StripAppendSpace(code, '\n');
  }

  /** In such a text the code starts just after the first newline. */
  lemma CodeStartAt(text: string, nl: nat)
    requires FencedShape(text, nl)
    ensures Contains(text, Fence) && CodeStart(text) == nl + 1
  {
    FindAtStart(text, Fence);
    assert text[3..][..1] == [text[3]];
  }

  /** The layout of "```<tag>\n<code>\n```": fences at both ends, the tag after the first,
      and the first newline from position 3 on just after the tag. */
  lemma FencedLayout(tag: string, code: string)
    requires StartsWith(tag, "c") && forall i :: 0 <= i < |tag| ==> tag[i] != '\n'
    ensures var text := Fence + tag + "\n" + code + "\n" + Fence;
            var nl := 3 + |tag|;
            FencedShape(text, nl) && text[nl + 1..|text| - 3] == code + "\n"
  {
    var text := Fence + tag + "\n" + code + "\n" + Fence;
    assert text[0] == '`' && text[|text| - 1] == '`';
    assert text[3] == tag[0] == 'c' by { assert tag[..1][0] == tag[0]; }
    var nl := 3 + |tag|;
    forall i | 3 <= i < nl ensures text[i] != '\n' {
      assert text[i] == tag[i - 3];
    }
    FindChar(text, '\n', 3, nl);
    assert text[..3] == Fence && text[|text| - 3..] == Fence;
    assert text[nl + 1..|text| - 3] == code + "\n";
  }

  /** A reply fenced as "```<tag>\n<code>\n```", with a tag starting with "c" and no newline
      in it ("c", "cpp"), gives back the code, stripped. */
  lemma FencedRoundTrip(tag: string, code: string)
    requires StartsWith(tag, "c") && forall i :: 0 <= i < |tag| ==> tag[i] != '\n'
    ensures ExtractCode(Fence + tag + "\n" + code + "\n" + Fence) == Strip(code)
  {
    FencedLayout(tag, code);
    FencedAt(Fence + tag + "\n" + code + "\n" + Fence, 3 + |tag|, code);
  }

  /** A reply whose only fence is not followed by a "c" tag left without a newline is
      returned whole (stripped): the last fence is then not after the start. */
  lemma SingleFenceWhole(reply: string)
    requires var text := Strip(reply);
             var first := Find(text, Fence, 0);
             && first >= 0 && RFind(text, Fence) == first
             && (!StartsWith(text[first + |Fence|..], "c") || Find(text, "\n", first + |Fence|) >= 0)
    ensures ExtractCode(reply) == Strip(reply)
  {
    ContainsAt(Strip(reply), Fence, Find(Strip(reply), Fence, 0));
  }

  /** With a "c" tag and no newline after the first fence, `find` gives -1 and the start falls
      back to 0: the returned code is everything before the last fence. */
  lemma NoNewlineStartsAtZero(reply: string)
    requires var text := Strip(reply);
             var first := Find(text, Fence, 0);
             && first > 0
             && StartsWith(text[first + |Fence|..], "c") && Find(text, "\n", first + |Fence|) == -1
    ensures var text := Strip(reply);
            ExtractCode(reply) == Strip(text[..RFind(text, Fence)])
  {
    var text := Strip(reply);
    var first := Find(text, Fence, 0);
    ContainsAt(text, Fence, first);
    assert RFind(text, Fence) >= first;
  }
}
