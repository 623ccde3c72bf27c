/**
 * What the splitting of page text gives (engines/ferrodoc-layout-rulebased/src/lib.rs): the lines grouped into
 * paragraphs, and each group joined.
 */
module SegmentationMeaning {
  import opened Text
  import opened TextSegmentation

  // ---- Lines and list items ----

  /** What is left of a text is its middle, without white space at either end. */
  lemma TrimMeans(text: string)
    ensures exists a: nat, b: nat ::
              a <= b <= |text| && Trim(text) == text[a..b] && Blank(text[..a]) && Blank(text[b..])
    ensures Trim(text) != [] ==> !IsWhitespace(Trim(text)[0]) && !IsWhitespace(Trim(text)[|Trim(text)| - 1])
  {
    var a := StartAt(text);
    var n := EndAt(text[a..]);
    assert text[a..][..n] == text[a..a + n] && text[a..][n..] == text[a + n..];
  }

  lemma {:induction false} StartAt(text: string) returns (a: nat)
    ensures a <= |text| && TrimStart(text) == text[a..] && Blank(text[..a])
    ensures a < |text| ==> !IsWhitespace(text[a])
  {
    if text != [] && IsWhitespace(text[0]) {
      var rest := StartAt(text[1..]);
      a := rest + 1;
      assert text[..a] == [text[0]] + text[1..][..rest];
    } else {
      a := 0;
    }
  }

  lemma {:induction false} EndAt(text: string) returns (n: nat)
    ensures n <= |text| && TrimEnd(text) == text[..n] && Blank(text[n..])
    ensures n > 0 ==> !IsWhitespace(text[n - 1])
  {
    if text != [] && IsWhitespace(text[|text| - 1]) {
      n := EndAt(text[..|text| - 1]);
      assert text[n..] == text[..|text| - 1][n..] + [text[|text| - 1]];
      assert text[..|text| - 1][..n] == text[..n];
    } else {
      n := |text|;
    }
  }

  ghost predicate Begins(text: string, start: string) {
    |start| <= |text| && text[..|start|] == start
  }

  /** A bullet and a space, or a number, a point or parenthesis, and a space. */
  ghost predicate ListItem(line: string) {
    || Begins(line, "- ") || Begins(line, "* ") || Begins(line, "\U{2022} ")
    || exists n: nat :: Numbered(line, n)
  }

  ghost predicate Numbered(line: string, n: nat) {
    && 1 <= n && n + 2 <= |line| && (forall k: nat :: k < n ==> '0' <= line[k] <= '9')
    && line[n] in {'.', ')'} && line[n + 1] == ' '
  }

  lemma {:induction false} LeadingMeans(text: string)
    ensures forall k: nat :: k < LeadingDigits(text) ==> '0' <= text[k] <= '9'
    ensures LeadingDigits(text) < |text| ==> !('0' <= text[LeadingDigits(text)] <= '9')
  {
    if text != [] && IsDigit(text[0]) {
      LeadingMeans(text[1..]);
      assert forall k: nat :: 0 < k < |text| ==> text[k] == text[1..][k - 1];
    }
  }

  lemma ListItemIff(line: string)
    ensures LooksLikeListItem(line) <==> ListItem(TrimStart(line))
  {
    var t := TrimStart(line);
    var n := LeadingDigits(t);
    LeadingMeans(t);
    if m: nat :| Numbered(t, m) {
      assert m == n;
      assert t[n..][..2] == [t[n], t[n + 1]];
    }
    if n > 0 && (". " <= t[n..] || ") " <= t[n..]) {
      assert t[n] == t[n..][0] && t[n + 1] == t[n..][1];
      assert Numbered(t, n);
    }
  }

  /** The ending is that of a line, the last one perhaps missing. */
  ghost predicate LineBreak(line: string, ending: string, last: bool) {
    || (ending == "\n" && (line == [] || line[|line| - 1] != '\r'))
    || ending == "\r\n"
    || (last && ending == "" && line != [])
  }

  ghost function Laid(lines: seq<string>, endings: seq<string>): string
    requires |lines| == |endings|
  {
    if lines == [] then [] else lines[0] + endings[0] + Laid(lines[1..], endings[1..])
  }

  /** The lines, each with its ending, are the text; none of them has a line feed. */
  lemma {:induction false} LinesMeans(text: string) returns (endings: seq<string>)
    ensures |endings| == |Lines(text)| && Laid(Lines(text), endings) == text
    ensures forall k: nat :: k < |endings| ==>
              OneLine(Lines(text)[k]) && LineBreak(Lines(text)[k], endings[k], k == |endings| - 1)
    decreases |text|
  {
    LinesOneLine(text);
    if text == [] {
      endings := [];
    } else {
      var n := LineEnd(text);
      if n == |text| {
        endings := [""];
        assert Laid([text], [""]) == text + "" + Laid([], []);
      } else {
        var rest := LinesMeans(text[n + 1..]);
        var line, ending := text[..n], "\n";
        if n > 0 && text[n - 1] == '\r' {
          line, ending := text[..n - 1], "\r\n";
        }
        FirstLine(text, n);
        LinesUnfold(text);
        LaidText(text, n, line, ending, Lines(text[n + 1..]), rest);
        endings := [ending] + rest;
      }
    }
  }

  lemma FirstLine(text: string, n: nat)
    requires n < |text| && text[n] == '\n'
    ensures n > 0 && text[n - 1] == '\r' ==> text[..n - 1] + "\r\n" == text[..n + 1]
    ensures !(n > 0 && text[n - 1] == '\r') ==> text[..n] + "\n" == text[..n + 1] && LineBreak(text[..n], "\n", false)
  {
  }

  lemma LinesUnfold(text: string)
    requires LineEnd(text) < |text|
    ensures var n := LineEnd(text);
            Lines(text) == [if n > 0 && text[n - 1] == '\r' then text[..n - 1] else text[..n]] + Lines(text[n + 1..])
  {
  }

  lemma LaidText(text: string, n: nat, line: string, ending: string, more: seq<string>, rest: seq<string>)
    requires n < |text| && line + ending == text[..n + 1] && |more| == |rest| && Laid(more, rest) == text[n + 1..]
    ensures Laid([line] + more, [ending] + rest) == text
  {
    LaidCons(line, more, ending, rest);
    assert text == text[..n + 1] + text[n + 1..];
  }

  lemma LaidCons(line: string, lines: seq<string>, ending: string, endings: seq<string>)
    requires |lines| == |endings|
    ensures Laid([line] + lines, [ending] + endings) == line + ending + Laid(lines, endings)
  {
    assert ([line] + lines)[1..] == lines && ([ending] + endings)[1..] == endings;
  }

  // ---- Groups of lines ----

  ghost predicate Closes(line: string) {
    line != [] && (line[|line| - 1] == '.' || line[|line| - 1] == '!' || line[|line| - 1] == '?')
  }

  ghost predicate Alone(heading: string -> bool, line: string) {
    heading(line) || ListItem(TrimStart(line))
  }

  /** How many lines from here belong to one paragraph: up to a blank or standing line, or through a sentence end. */
  ghost function Extent(heading: string -> bool, lines: seq<string>): (n: nat)
    ensures n <= |lines|
  {
    if lines == [] || lines[0] == [] || Alone(heading, lines[0]) then 0
    else if Closes(lines[0]) then 1
    else 1 + Extent(heading, lines[1..])
  }

  /** The lines by block, blank lines left out. */
  ghost function Groups(heading: string -> bool, lines: seq<string>): seq<seq<string>>
    decreases |lines|
  {
    if lines == [] then []
    else if lines[0] == [] then Groups(heading, lines[1..])
    else if Alone(heading, lines[0]) then [[lines[0]]] + Groups(heading, lines[1..])
    else
      var n := Extent(heading, lines);
      [lines[..n]] + Groups(heading, lines[n..])
  }

  /** One line after another, a space between two unless the first ends in a hyphen. */
  ghost function Joined(lines: seq<string>): string {
    if lines == [] then []
    else if |lines| == 1 then lines[0]
    else
      var n := |lines| - 1;
      var before := lines[n - 1];
      Joined(lines[..n]) + (if before != [] && before[|before| - 1] == '-' then [] else [' ']) + lines[n]
  }

  ghost function JoinedAll(groups: seq<seq<string>>): seq<string> {
    if groups == [] then [] else [Joined(groups[0])] + JoinedAll(groups[1..])
  }

  ghost function Trimmed(lines: seq<string>): seq<string> {
    if lines == [] then [] else [Trim(lines[0])] + Trimmed(lines[1..])
  }

  ghost predicate NoneBlank(lines: seq<string>) {
    forall k: nat :: k < |lines| ==> lines[k] != []
  }

  lemma {:induction false} JoinedEnd(lines: seq<string>)
    requires lines != [] && NoneBlank(lines)
    ensures Joined(lines) != [] && Joined(lines)[|Joined(lines)| - 1] == lines[|lines| - 1][|lines[|lines| - 1]| - 1]
  {
  }

  /** A line that continues the paragraph of the lines before it. */
  lemma Continued(open: seq<string>, line: string)
    requires NoneBlank(open) && line != []
    ensures Continue(Joined(open), line) == Joined(open + [line])
  {
    assert (open + [line])[..|open|] == open;
    if open != [] {
      JoinedEnd(open);
    }
  }

  lemma JoinedCons(group: seq<string>, groups: seq<seq<string>>)
    ensures JoinedAll([group] + groups) == [Joined(group)] + JoinedAll(groups)
  {
    assert ([group] + groups)[1..] == groups;
  }

  /** What the lines still to come add to the blocks, the lines `open` having begun a paragraph. */
  ghost function Coming(heading: string -> bool, open: seq<string>, lines: seq<string>): seq<seq<string>> {
    if open == [] then Groups(heading, lines)
    else
      var n := Extent(heading, lines);
      [open + lines[..n]] + Groups(heading, lines[n..])
  }

  ghost function Finished(heading: string -> bool, s: Segments, lines: seq<string>): seq<string> {
    Flush(AddLines(heading, s, lines)).blocks
  }

  lemma {:induction false} GroupsFrom(heading: string -> bool, blocks: seq<string>, open: seq<string>, raw: seq<string>)
    requires NoneBlank(open)
    ensures Finished(heading, Segments(blocks, Joined(open)), raw)
         == blocks + JoinedAll(Coming(heading, open, Trimmed(raw)))
    decreases |raw|
  {
    if open != [] {
      JoinedEnd(open);
    }
    if raw == [] {
      assert open + [] == open;
      JoinedCons(open, []);
      assert [open] + [] == [open];
    } else {
      var line, rest := Trim(raw[0]), raw[1..];
      var flushed := if open == [] then blocks else blocks + [Joined(open)];
      if line == [] {
        BlankLine(heading, blocks, open, raw);
        GroupsFrom(heading, flushed, [], rest);
      } else if Alone(heading, line) {
        AloneLine(heading, blocks, open, raw);
        AloneBlocks(heading, open, raw);
        GroupsFrom(heading, flushed + [line], [], rest);
        var more := JoinedAll(Groups(heading, Trimmed(rest)));
        Shift(flushed, line, more);
        if open != [] {
          Shift(blocks, Joined(open), [line] + more);
        }
      } else {
        var longer := open + [line];
        Continued(open, line);
        JoinedEnd(longer);
        WrappedLine(heading, blocks, open, raw);
        WrappedBlocks(heading, open, raw);
        if Closes(line) {
          GroupsFrom(heading, blocks + [Joined(longer)], [], rest);
          Shift(blocks, Joined(longer), JoinedAll(Groups(heading, Trimmed(rest))));
        } else {
          GroupsFrom(heading, blocks, longer, rest);
        }
      }
    }
  }

  lemma Shift(blocks: seq<string>, block: string, more: seq<string>)
    ensures blocks + [block] + more == blocks + ([block] + more)
  {
  }

  lemma WrappedBlocks(heading: string -> bool, open: seq<string>, raw: seq<string>)
    requires raw != [] && Trim(raw[0]) != [] && !Alone(heading, Trim(raw[0]))
    ensures var longer := open + [Trim(raw[0])];
            JoinedAll(Coming(heading, open, Trimmed(raw)))
            == if Closes(Trim(raw[0])) then [Joined(longer)] + JoinedAll(Groups(heading, Trimmed(raw[1..])))
               else JoinedAll(Coming(heading, longer, Trimmed(raw[1..])))
  {
    assert Trimmed(raw)[1..] == Trimmed(raw[1..]);
    WrappedGroup(heading, open, Trimmed(raw));
    JoinedCons(open + [Trim(raw[0])], Groups(heading, Trimmed(raw[1..])));
  }

  lemma BlankLine(heading: string -> bool, blocks: seq<string>, open: seq<string>, raw: seq<string>)
    requires raw != [] && Trim(raw[0]) == [] && NoneBlank(open) && (open != [] ==> Joined(open) != [])
    ensures var flushed := if open == [] then blocks else blocks + [Joined(open)];
            && Finished(heading, Segments(blocks, Joined(open)), raw) ==
               Finished(heading, Segments(flushed, []), raw[1..])
            && blocks + JoinedAll(Coming(heading, open, Trimmed(raw)))
               == flushed + JoinedAll(Groups(heading, Trimmed(raw[1..])))
  {
    var lines := Trimmed(raw);
    assert lines[1..] == Trimmed(raw[1..]);
    assert Groups(heading, lines) == Groups(heading, lines[1..]);
    if open != [] {
      assert open + lines[..0] == open && lines[0..] == lines;
      JoinedCons(open, Groups(heading, lines));
    }
  }

  lemma AloneLine(heading: string -> bool, blocks: seq<string>, open: seq<string>, raw: seq<string>)
    requires raw != [] && Trim(raw[0]) != [] && Alone(heading, Trim(raw[0]))
    requires open != [] ==> Joined(open) != []
    ensures var flushed := if open == [] then blocks else blocks + [Joined(open)];
            Finished(heading, Segments(blocks, Joined(open)), raw)
            == Finished(heading, Segments(flushed + [Trim(raw[0])], []), raw[1..])
  {
    ListItemIff(Trim(raw[0]));
  }

  lemma AloneBlocks(heading: string -> bool, open: seq<string>, raw: seq<string>)
    requires raw != [] && Trim(raw[0]) != [] && Alone(heading, Trim(raw[0]))
    ensures JoinedAll(Coming(heading, open, Trimmed(raw)))
         == (if open == [] then [] else [Joined(open)])
            + ([Trim(raw[0])] + JoinedAll(Groups(heading, Trimmed(raw[1..]))))
  {
    var lines, line := Trimmed(raw), Trim(raw[0]);
    assert lines[1..] == Trimmed(raw[1..]);
    JoinedCons([line], Groups(heading, lines[1..]));
    if open != [] {
      assert open + lines[..0] == open && lines[0..] == lines;
      JoinedCons(open, Groups(heading, lines));
    }
  }

  lemma WrappedLine(heading: string -> bool, blocks: seq<string>, open: seq<string>, raw: seq<string>)
    requires raw != [] && Trim(raw[0]) != [] && !Alone(heading, Trim(raw[0]))
    requires Continue(Joined(open), Trim(raw[0])) == Joined(open + [Trim(raw[0])]) != []
    ensures var longer := open + [Trim(raw[0])];
            Finished(heading, Segments(blocks, Joined(open)), raw)
            == if Closes(Trim(raw[0])) then Finished(heading, Segments(blocks + [Joined(longer)], []), raw[1..])
               else Finished(heading, Segments(blocks, Joined(longer)), raw[1..])
  {
    ListItemIff(Trim(raw[0]));
  }

  lemma WrappedGroup(heading: string -> bool, open: seq<string>, lines: seq<string>)
    requires lines != [] && lines[0] != [] && !Alone(heading, lines[0])
    ensures var longer := open + [lines[0]];
            Coming(heading, open, lines)
            == if Closes(lines[0]) then [longer] + Groups(heading, lines[1..]) else Coming(heading, longer, lines[1..])
  {
    var longer, n := open + [lines[0]], Extent(heading, lines);
    assert lines[..n] == [lines[0]] + lines[1..][..n - 1];
    assert open + lines[..n] == longer + lines[1..][..n - 1];
    assert lines[n..] == lines[1..][n - 1..];
    if Closes(lines[0]) {
      assert longer + lines[1..][..0] == longer;
    }
    if open == [] {
      assert [] + lines[..n] == lines[..n];
    }
  }

  /** The blocks of a text are its trimmed lines, grouped into paragraphs and joined. */
  lemma SegmentIsGroups(heading: string -> bool, text: string)
    ensures Segment(heading, text) == JoinedAll(Groups(heading, Trimmed(Lines(text))))
  {
    GroupsFrom(heading, [], [], Lines(text));
  }
}
