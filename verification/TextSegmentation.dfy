/** Splitting page text into blocks (engines/ferrodoc-layout-rulebased/src/lib.rs). */
module TextSegmentation {
  import opened Text

  /** The characters that are not white space, in order. */
  function Ink(text: string): string {
    if text == [] then [] else (if IsWhitespace(text[0]) then [] else [text[0]]) + Ink(text[1..])
  }

  lemma {:induction false} InkConcat(a: string, b: string)
    ensures Ink(a + b) == Ink(a) + Ink(b)
  {
    if a == [] {
      assert a + b == b;
    } else {
      assert (a + b)[1..] == a[1..] + b;
      InkConcat(a[1..], b);
    }
  }

  lemma {:induction false} InkTrimStart(text: string)
    ensures Ink(TrimStart(text)) == Ink(text)
  {
    if text != [] && IsWhitespace(text[0]) {
      InkTrimStart(text[1..]);
    }
  }

  lemma {:induction false} InkTrimEnd(text: string)
    ensures Ink(TrimEnd(text)) == Ink(text)
  {
    if text != [] && IsWhitespace(text[|text| - 1]) {
      InkTrimEnd(text[..|text| - 1]);
      InkConcat(text[..|text| - 1], [text[|text| - 1]]);
      assert text == text[..|text| - 1] + [text[|text| - 1]];
    }
  }

  function Concat(blocks: seq<string>): string {
    if blocks == [] then [] else blocks[0] + Concat(blocks[1..])
  }

  lemma {:induction false} ConcatPush(blocks: seq<string>, block: string)
    ensures Concat(blocks + [block]) == Concat(blocks) + block
  {
    if blocks == [] {
      assert Concat([block]) == block + Concat([]);
    } else {
      assert (blocks + [block])[1..] == blocks[1..] + [block];
      ConcatPush(blocks[1..], block);
    }
  }

  // ---- Lines ----

  /** A final line break is dropped with the line it ends; so is a carriage return before a line feed. */
  function Lines(text: string): seq<string>
    decreases |text|
  {
    if text == [] then []
    else
      var n := LineEnd(text);
      if n == |text| then [text]
      else
        var line := if n > 0 && text[n - 1] == '\r' then text[..n - 1] else text[..n];
        [line] + Lines(text[n + 1..])
  }

  function LineEnd(text: string): (n: nat)
    ensures n <= |text| && (n < |text| ==> text[n] == '\n')
  {
    if text == [] || text[0] == '\n' then 0 else 1 + LineEnd(text[1..])
  }

  lemma ConcatCons(line: string, lines: seq<string>)
    ensures Concat([line] + lines) == line + Concat(lines)
  {
    assert ([line] + lines)[1..] == lines;
  }

  /** A line with the line break after it. */
  lemma InkLine(text: string, line: string, end: nat)
    requires |line| <= end <= |text| && line == text[..|line|] && Blank(text[|line|..end])
    ensures Ink(text) == Ink(line) + Ink(text[end..])
  {
    var ending, rest := text[|line|..end], text[end..];
    assert text == line + (ending + rest);
    InkConcat(line, ending + rest);
    InkConcat(ending, rest);
    InkBlank(ending);
  }

  lemma {:induction false} InkLines(text: string)
    ensures Ink(Concat(Lines(text))) == Ink(text)
    decreases |text|
  {
    if text != [] {
      var n := LineEnd(text);
      if n == |text| {
        ConcatCons(text, []);
        assert [text] + [] == [text];
        assert text + [] == text;
      } else {
        var line := if n > 0 && text[n - 1] == '\r' then text[..n - 1] else text[..n];
        var rest := text[n + 1..];
        InkLines(rest);
        ConcatCons(line, Lines(rest));
        InkConcat(line, Concat(Lines(rest)));
        InkLine(text, line, n + 1);
      }
    }
  }

  lemma {:induction false} InkBlank(text: string)
    requires Blank(text)
    ensures Ink(text) == []
  {
    if text != [] {
      InkBlank(text[1..]);
    }
  }

  // ---- Segmentation ----

  predicate IsDigit(c: char) {
    '0' <= c <= '9'
  }

  function LeadingDigits(text: string): (n: nat)
    ensures n <= |text|
  {
    if text == [] || !IsDigit(text[0]) then 0 else 1 + LeadingDigits(text[1..])
  }

  predicate LooksLikeListItem(text: string) {
    var trimmed := TrimStart(text);
    var n := LeadingDigits(trimmed);
    || "- " <= trimmed || "* " <= trimmed || "\U{2022} " <= trimmed
    || (n > 0 && (". " <= trimmed[n..] || ") " <= trimmed[n..]))
  }

  predicate EndsSentence(line: string) {
    line != [] && line[|line| - 1] in {'.', '!', '?'}
  }

  /** How a wrapped line continues a paragraph: after a hyphen without a space. */
  function Continue(paragraph: string, line: string): string {
    if paragraph == [] || paragraph[|paragraph| - 1] == '-' then paragraph + line else paragraph + [' '] + line
  }

  datatype Segments = Segments(blocks: seq<string>, paragraph: string)

  function Flush(s: Segments): Segments {
    if s.paragraph == [] then s else Segments(s.blocks + [s.paragraph], [])
  }

  /** A heading or a list item is a block of its own. */
  function AddAlone(s: Segments, line: string): Segments {
    Segments(Flush(s).blocks + [line], [])
  }

  /** Any other line continues the paragraph, which a sentence end closes. */
  function AddWrapped(s: Segments, line: string): Segments {
    var longer := Segments(s.blocks, Continue(s.paragraph, line));
    if EndsSentence(line) then Flush(longer) else longer
  }

  /** One line, with `heading` deciding which lines are headings. */
  function AddLine(heading: string -> bool, s: Segments, raw: string): Segments {
    var line := Trim(raw);
    if line == [] then Flush(s)
    else if heading(line) || LooksLikeListItem(line) then AddAlone(s, line)
    else AddWrapped(s, line)
  }

  function AddLines(heading: string -> bool, s: Segments, lines: seq<string>): Segments
    decreases |lines|
  {
    if lines == [] then s else AddLines(heading, AddLine(heading, s, lines[0]), lines[1..])
  }

  function Segment(heading: string -> bool, text: string): seq<string> {
    Flush(AddLines(heading, Segments([], []), Lines(text))).blocks
  }

  function InkOf(s: Segments): string {
    Ink(Concat(s.blocks)) + Ink(s.paragraph)
  }

  predicate NoEmptyBlock(blocks: seq<string>) {
    forall i: nat :: i < |blocks| ==> blocks[i] != []
  }

  lemma InkPush(blocks: seq<string>, block: string)
    ensures Ink(Concat(blocks + [block])) == Ink(Concat(blocks)) + Ink(block)
  {
    ConcatPush(blocks, block);
    InkConcat(Concat(blocks), block);
  }

  lemma FlushConserves(s: Segments)
    ensures InkOf(Flush(s)) == InkOf(s) && Flush(s).paragraph == []
    ensures NoEmptyBlock(s.blocks) ==> NoEmptyBlock(Flush(s).blocks)
  {
    InkPush(s.blocks, s.paragraph);
  }

  lemma ContinueConserves(paragraph: string, line: string)
    ensures Ink(Continue(paragraph, line)) == Ink(paragraph) + Ink(line)
  {
    InkConcat(paragraph, line);
    InkConcat(paragraph, [' ']);
    InkConcat(paragraph + [' '], line);
    InkBlank([' ']);
  }

  lemma TrimConserves(text: string)
    ensures Ink(Trim(text)) == Ink(text)
  {
    InkTrimStart(text);
    InkTrimEnd(TrimStart(text));
  }

  lemma Regroup(a: string, b: string, c: string)
    ensures (a + b) + c == a + (b + c)
    ensures a + [] == a && [] + a == a
  {
  }

  lemma AloneConserves(s: Segments, line: string)
    requires NoEmptyBlock(s.blocks) && line != []
    ensures InkOf(AddAlone(s, line)) == InkOf(s) + Ink(line)
    ensures NoEmptyBlock(AddAlone(s, line).blocks)
  {
    var flushed := Flush(s);
    FlushConserves(s);
    InkPush(flushed.blocks, line);
    Regroup(Ink(Concat(flushed.blocks)), Ink(line), []);
    Regroup(Ink(Concat(flushed.blocks + [line])), [], []);
  }

  lemma WrappedConserves(s: Segments, line: string)
    requires NoEmptyBlock(s.blocks)
    ensures InkOf(AddWrapped(s, line)) == InkOf(s) + Ink(line)
    ensures NoEmptyBlock(AddWrapped(s, line).blocks)
  {
    var longer := Segments(s.blocks, Continue(s.paragraph, line));
    ContinueConserves(s.paragraph, line);
    Regroup(Ink(Concat(s.blocks)), Ink(s.paragraph), Ink(line));
    assert InkOf(longer) == InkOf(s) + Ink(line);
    FlushConserves(longer);
  }

  lemma AddLineConserves(heading: string -> bool, s: Segments, raw: string)
    requires NoEmptyBlock(s.blocks)
    ensures InkOf(AddLine(heading, s, raw)) == InkOf(s) + Ink(raw)
    ensures NoEmptyBlock(AddLine(heading, s, raw).blocks)
  {
    var line := Trim(raw);
    TrimConserves(raw);
    FlushConserves(s);
    WrappedConserves(s, line);
    if line != [] {
      AloneConserves(s, line);
    }
  }

  lemma {:induction false} AddLinesConserve(heading: string -> bool, s: Segments, lines: seq<string>)
    requires NoEmptyBlock(s.blocks)
    ensures InkOf(AddLines(heading, s, lines)) == InkOf(s) + Ink(Concat(lines))
    ensures NoEmptyBlock(AddLines(heading, s, lines).blocks)
    decreases |lines|
  {
    if lines != [] {
      AddLineConserves(heading, s, lines[0]);
      AddLinesConserve(heading, AddLine(heading, s, lines[0]), lines[1..]);
      InkConcat(lines[0], Concat(lines[1..]));
    }
  }

  /** No block is empty, and the blocks together hold exactly the text's characters other than white space, in order. */
  lemma SegmentationConservesText(heading: string -> bool, text: string)
    ensures Ink(Concat(Segment(heading, text))) == Ink(text)
    ensures NoEmptyBlock(Segment(heading, text))
  {
    var start := Segments([], []);
    AddLinesConserve(heading, start, Lines(text));
    InkLines(text);
    var end := AddLines(heading, start, Lines(text));
    FlushConserves(end);
    assert InkOf(start) == [];
    Regroup(Ink(Concat(Lines(text))), [], []);
    Regroup(Ink(Concat(Flush(end).blocks)), [], []);
  }

  // ---- Where blocks begin and end ----

  predicate OneLine(text: string) {
    '\n' !in text
  }

  predicate OneLineEach(s: Segments) {
    OneLine(s.paragraph) && forall i: nat :: i < |s.blocks| ==> OneLine(s.blocks[i])
  }

  lemma {:induction false} TrimStartKeeps(text: string)
    ensures forall c :: c in TrimStart(text) ==> c in text
  {
    if text != [] && IsWhitespace(text[0]) {
      TrimStartKeeps(text[1..]);
    }
  }

  lemma {:induction false} TrimEndKeeps(text: string)
    ensures forall c :: c in TrimEnd(text) ==> c in text
  {
    if text != [] && IsWhitespace(text[|text| - 1]) {
      TrimEndKeeps(text[..|text| - 1]);
    }
  }

  lemma AddLineOneLine(heading: string -> bool, s: Segments, raw: string)
    requires OneLineEach(s) && OneLine(raw)
    ensures OneLineEach(AddLine(heading, s, raw)) && s.blocks <= AddLine(heading, s, raw).blocks
  {
    TrimStartKeeps(raw);
    TrimEndKeeps(TrimStart(raw));
  }

  lemma {:induction false} AddLinesOneLine(heading: string -> bool, s: Segments, lines: seq<string>)
    requires OneLineEach(s) && forall i: nat :: i < |lines| ==> OneLine(lines[i])
    ensures OneLineEach(AddLines(heading, s, lines)) && s.blocks <= AddLines(heading, s, lines).blocks
    decreases |lines|
  {
    if lines != [] {
      AddLineOneLine(heading, s, lines[0]);
      AddLinesOneLine(heading, AddLine(heading, s, lines[0]), lines[1..]);
    }
  }

  lemma {:induction false} LineEndFirst(text: string)
    ensures OneLine(text[..LineEnd(text)])
  {
    if text != [] && text[0] != '\n' {
      LineEndFirst(text[1..]);
      assert text[..LineEnd(text)] == [text[0]] + text[1..][..LineEnd(text[1..])];
    }
  }

  lemma {:induction false} LinesOneLine(text: string)
    ensures forall i: nat :: i < |Lines(text)| ==> OneLine(Lines(text)[i])
    decreases |text|
  {
    if text != [] {
      var n := LineEnd(text);
      LineEndFirst(text);
      if n < |text| {
        LinesOneLine(text[n + 1..]);
      } else {
        assert text[..n] == text;
      }
    }
  }

  /** A line that is a heading or a list item. */
  predicate StandsAlone(heading: string -> bool, line: string) {
    line != [] && (heading(line) || LooksLikeListItem(line))
  }

  /** No block holds a line break, and every heading and list item is a block of its own. */
  lemma BlocksFollowLines(heading: string -> bool, text: string, i: nat)
    requires i < |Lines(text)|
    ensures forall k: nat :: k < |Segment(heading, text)| ==> OneLine(Segment(heading, text)[k])
    ensures StandsAlone(heading, Trim(Lines(text)[i])) ==> Trim(Lines(text)[i]) in Segment(heading, text)
  {
    var lines, start := Lines(text), Segments([], []);
    LinesOneLine(text);
    AddLinesOneLine(heading, start, lines);
    var before := AddLines(heading, start, lines[..i]);
    AddLinesOneLine(heading, start, lines[..i]);
    AddLinesConcat(heading, start, lines[..i], lines[i..]);
    assert lines[..i] + lines[i..] == lines;
    AddLineOneLine(heading, before, lines[i]);
    AddLinesOneLine(heading, AddLine(heading, before, lines[i]), lines[i + 1..]);
    assert lines[i..][1..] == lines[i + 1..];
    if StandsAlone(heading, Trim(lines[i])) {
      var blocks := AddLine(heading, before, lines[i]).blocks;
      assert blocks[|blocks| - 1] == Trim(lines[i]);
    }
  }

  lemma {:induction false} AddLinesConcat(heading: string -> bool, s: Segments, a: seq<string>, b: seq<string>)
    ensures AddLines(heading, s, a + b) == AddLines(heading, AddLines(heading, s, a), b)
    decreases |a|
  {
    if a == [] {
      assert a + b == b;
    } else {
      assert (a + b)[1..] == a[1..] + b;
      AddLinesConcat(heading, AddLine(heading, s, a[0]), a[1..], b);
    }
  }

  lemma {:induction false} AddLinesPush(heading: string -> bool, s: Segments, lines: seq<string>, i: nat)
    requires i < |lines|
    ensures AddLines(heading, s, lines[..i + 1]) == AddLine(heading, AddLines(heading, s, lines[..i]), lines[i])
    decreases i
  {
    if i > 0 {
      assert lines[..i + 1][1..] == lines[1..][..i];
      assert lines[..i][1..] == lines[1..][..i - 1];
      AddLinesPush(heading, AddLine(heading, s, lines[0]), lines[1..], i - 1);
    }
  }

  method TextBlocks(heading: string -> bool, text: string) returns (blocks: seq<string>)
    ensures blocks == Segment(heading, text)
  {
    var lines := Lines(text);
    var paragraph: string := [];
    blocks := [];
    for i := 0 to |lines|
      invariant Segments(blocks, paragraph) == AddLines(heading, Segments([], []), lines[..i])
    {
      AddLinesPush(heading, Segments([], []), lines, i);
      var line := Trim(lines[i]);
      if line == [] || heading(line) || LooksLikeListItem(line) {
        if paragraph != [] {
          blocks, paragraph := blocks + [paragraph], [];
        }
        if line != [] {
          blocks := blocks + [line];
        }
      } else {
        if paragraph != [] && paragraph[|paragraph| - 1] != '-' {
          paragraph := paragraph + [' '];
        }
        paragraph := paragraph + line;
        if EndsSentence(line) {
          blocks, paragraph := blocks + [paragraph], [];
        }
      }
    }
    assert lines[..|lines|] == lines;
    if paragraph != [] {
      blocks := blocks + [paragraph];
    }
  }
}
