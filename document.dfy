/**
 * Report text to Word document: Markdown-style lines become headings and paragraphs, and
 * `**` markers inside a paragraph become alternating plain and bold runs. The document is
 * the list of calls made on it.
 */
module Document {
  import opened Text

  /** One call on the Word document. */
  datatype Event =
    | Paragraph(text: string)                        // a paragraph holding `text` as it is
    | EmptyParagraph                                 // a paragraph that runs are then added to
    | Run(text: string, bold: bool, size: nat)       // a run of the last paragraph, `size` in points
    | Heading(text: string, level: nat, size: nat)   // a heading whose style is set to `size` points

  const RunSize: nat := 11
  const Level3Size: nat := 12
  const Level2Size: nat := 13

  /** The document under construction: every call made on it, in order. */
  class Document {
    var events: seq<Event>

    constructor()
      ensures events == []
    {
      events := [];
    }
  }

  /** `pattern` occurs in `s` at index `i`. */
  predicate OccursAt(s: string, pattern: string, i: int)
  {
    0 <= i <= |s| - |pattern| && s[i..i + |pattern|] == pattern
  }

  /** `pattern` occurs somewhere in `s`. */
  predicate Occurs(s: string, pattern: string)
  {
    exists i :: 0 <= i <= |s| - |pattern| && OccursAt(s, pattern, i)
  }

  /** Splitting gives one piece exactly when the separator does not occur. */
  lemma {:induction false} SplitSingleIffAbsent(s: string, sep: string)
    requires |sep| > 0
    ensures |Split(s, sep)| == 1 <==> !Occurs(s, sep)
    decreases |s|
  {
    if |s| < |sep| {
    } else if s[..|sep|] == sep {
      assert OccursAt(s, sep, 0);
      assert |Split(s[|sep|..], sep)| >= 1;
    } else {
      SplitSingleIffAbsent(s[1..], sep);
      if Occurs(s, sep) {
        var i :| 0 <= i <= |s| - |sep| && OccursAt(s, sep, i);
        assert i != 0;
        assert s[1..][i - 1..i - 1 + |sep|] == s[i..i + |sep|];
        assert OccursAt(s[1..], sep, i - 1);
      }
      if Occurs(s[1..], sep) {
        var i :| 0 <= i <= |s[1..]| - |sep| && OccursAt(s[1..], sep, i);
        assert s[i + 1..i + 1 + |sep|] == s[1..][i..i + |sep|];
        assert OccursAt(s, sep, i + 1);
      }
    }
  }

  /** The runs for the pieces `parts`, the first of which has index `first` in the split. */
  function RunsFrom(parts: seq<string>, first: nat): seq<Event>
  {
    if |parts| == 0 then []
    else (if parts[0] == "" then [] else [Run(parts[0], first % 2 == 1, RunSize)]) + RunsFrom(parts[1..], first + 1)
  }

  /** The calls for one paragraph of text: a plain paragraph without `**`, otherwise its non-empty pieces as runs. */
  function ParagraphEvents(text: string): seq<Event>
  {
    var parts := Split(text, "**");
    if |parts| <= 1 then [Paragraph(text)] else [EmptyParagraph] + RunsFrom(parts, 0)
  }

  /** The runs from piece `i` on: that piece's run, if it is non-empty, then the runs of the rest. */
  lemma RunsStep(parts: seq<string>, i: int)
    requires 0 <= i < |parts|
    ensures RunsFrom(parts[i..], i) ==
      (if parts[i] == "" then [] else [Run(parts[i], i % 2 == 1, RunSize)]) + RunsFrom(parts[i + 1..], i + 1)
  {
    assert parts[i..][0] == parts[i] && parts[i..][1..] == parts[i + 1..];
  }

  lemma Regroup(a: seq<Event>, b: seq<Event>, c: seq<Event>)
    ensures a + b + c == a + (b + c)
  {
  }

  /** `process_paragraph_text`: one paragraph, then one run per non-empty piece between the markers. */
  method ProcessParagraphText(doc: Document, text: string)
    modifies doc
    ensures doc.events == old(doc.events) + ParagraphEvents(text)
  {
    var parts := Split(text, "**");
    if |parts| <= 1 {
      doc.events := doc.events + [Paragraph(text)];
      return;
    }
    Regroup(doc.events, [EmptyParagraph], RunsFrom(parts, 0));
    doc.events := doc.events + [EmptyParagraph];
    ghost var start := doc.events;
    var i := 0;
    while i < |parts|
      invariant 0 <= i <= |parts|
      invariant doc.events + RunsFrom(parts[i..], i) == start + RunsFrom(parts, 0)
    {
      RunsStep(parts, i);
      ghost var head: seq<Event> := if parts[i] == "" then [] else [Run(parts[i], i % 2 == 1, RunSize)];
      Regroup(doc.events, head, RunsFrom(parts[i + 1..], i + 1));
      if parts[i] != "" {
        doc.events := doc.events + [Run(parts[i], i % 2 == 1, RunSize)];
      }
      i := i + 1;
    }
    assert parts[i..] == [];
  }

  /** Text without `**` is one paragraph, unchanged. */
  lemma PlainTextIsOneParagraph(text: string)
    requires !Occurs(text, "**")
    ensures ParagraphEvents(text) == [Paragraph(text)]
  {
    SplitSingleIffAbsent(text, "**");
  }

  /** The texts of the runs, end to end. */
  function RunTexts(events: seq<Event>): string
  {
    if |events| == 0 then "" else (if events[0].Run? then events[0].text else "") + RunTexts(events[1..])
  }

  lemma {:induction false} RunTextsAppend(xs: seq<Event>, ys: seq<Event>)
    ensures RunTexts(xs + ys) == RunTexts(xs) + RunTexts(ys)
    decreases |xs|
  {
    if |xs| > 0 {
      assert (xs + ys)[0] == xs[0];
      assert (xs + ys)[1..] == xs[1..] + ys;
      RunTextsAppend(xs[1..], ys);
    } else {
      assert xs + ys == ys;
    }
  }

  /** The runs spell out the pieces, end to end: nothing is lost but the empty pieces. */
  lemma {:induction false} RunsSpellPieces(parts: seq<string>, first: nat)
    ensures RunTexts(RunsFrom(parts, first)) == Join(parts, "")
    decreases |parts|
  {
    if |parts| > 0 {
      var head: seq<Event> := if parts[0] == "" then [] else [Run(parts[0], first % 2 == 1, RunSize)];
      RunsSpellPieces(parts[1..], first + 1);
      RunTextsAppend(head, RunsFrom(parts[1..], first + 1));
      assert RunTexts(head) == parts[0] by {
        if parts[0] != "" {
          assert head[1..] == [];
        }
      }
    }
  }

  /** A text with markers is spelled by its runs as the text with every `**` removed. */
  lemma MarkedTextSpelledByRuns(text: string)
    requires Occurs(text, "**")
    ensures ParagraphEvents(text) == [EmptyParagraph] + RunsFrom(Split(text, "**"), 0)
    ensures RunTexts(ParagraphEvents(text)) == ReplaceAll(text, "**", "")
  {
    SplitSingleIffAbsent(text, "**");
    RunsSpellPieces(Split(text, "**"), 0);
    RunTextsAppend([EmptyParagraph], RunsFrom(Split(text, "**"), 0));
  }

  /** Every run is a non-empty piece of the split, bold exactly when that piece has an odd index. */
  lemma {:induction false} RunsAreOddBold(parts: seq<string>, first: nat)
    ensures forall k :: 0 <= k < |RunsFrom(parts, first)| ==>
      exists i :: 0 <= i < |parts| && parts[i] != "" && RunsFrom(parts, first)[k] == Run(parts[i], (first + i) % 2 == 1, RunSize)
    decreases |parts|
  {
    if |parts| > 0 {
      RunsAreOddBold(parts[1..], first + 1);
      var runs := RunsFrom(parts, first);
      var rest := RunsFrom(parts[1..], first + 1);
      var skip := if parts[0] == "" then 0 else 1;
      assert runs[skip..] == rest;
      forall k | 0 <= k < |runs|
        ensures exists i :: 0 <= i < |parts| && parts[i] != "" && runs[k] == Run(parts[i], (first + i) % 2 == 1, RunSize)
      {
        if k < skip {
          assert runs[k] == Run(parts[0], (first + 0) % 2 == 1, RunSize);
          assert 0 < |parts| && parts[0] != "";
        } else {
          assert runs[k] == rest[k - skip];
          var i :| 0 <= i < |parts[1..]| && parts[1..][i] != "" &&
            rest[k - skip] == Run(parts[1..][i], (first + 1 + i) % 2 == 1, RunSize);
          assert parts[i + 1] == parts[1..][i];
          assert runs[k] == Run(parts[i + 1], (first + (i + 1)) % 2 == 1, RunSize);
        }
      }
    } else {
      assert RunsFrom(parts, first) == [];
    }
  }

  /** What the lines amount to: a body paragraph of buffered lines, or a heading of some level. */
  datatype Block = Body(lines: seq<string>) | Title(text: string, level: nat)

  predicate IsHeading(line: string)
  {
    StartsWith(line, "##")
  }

  /** The heading a `##` or `###` line stands for: the marker removed everywhere and the rest stripped. */
  function HeadingOf(line: string): Block
  {
    if StartsWith(line, "###") then Title(Strip(ReplaceAll(line, "###", "")), 3)
    else Title(Strip(ReplaceAll(line, "##", "")), 2)
  }

  /** The buffered lines as a block, when there are any. */
  function Flush(buffer: seq<string>): seq<Block>
  {
    if |buffer| > 0 then [Body(buffer)] else []
  }

  /** The blocks closed so far and the lines buffered for the next paragraph. */
  function Scan(lines: seq<string>): (seq<Block>, seq<string>)
  {
    if |lines| == 0 then ([], []) else Step(Scan(lines[..|lines| - 1]), lines[|lines| - 1])
  }

  /** The scan state after one more line. */
  function Step(state: (seq<Block>, seq<string>), line: string): (seq<Block>, seq<string>)
  {
    if IsHeading(line) then (state.0 + Flush(state.1) + [HeadingOf(line)], [])
    else if Strip(line) != "" then (state.0, state.1 + [line])
    else state
  }

  /** Reading one more line is one more step of the scan. */
  lemma ScanPrefix(lines: seq<string>, i: int)
    requires 0 <= i < |lines|
    ensures Scan(lines[..i + 1]) == Step(Scan(lines[..i]), lines[i])
  {
    assert lines[..i + 1][..i] == lines[..i];
  }

  /** Only a heading line closes blocks; any other line leaves them as they are. */
  lemma StepBlocks(state: (seq<Block>, seq<string>), line: string)
    ensures IsHeading(line) ==> Step(state, line) == (state.0 + Flush(state.1) + [HeadingOf(line)], [])
    ensures !IsHeading(line) ==> Step(state, line).0 == state.0
    ensures !IsHeading(line) && Strip(line) != "" ==> Step(state, line).1 == state.1 + [line]
    ensures !IsHeading(line) && Strip(line) == "" ==> Step(state, line).1 == state.1
  {
  }

  /** The blocks of all lines, with the last paragraph flushed at the end. */
  function Blocks(lines: seq<string>): seq<Block>
  {
    Scan(lines).0 + Flush(Scan(lines).1)
  }

  /** The calls one block makes. */
  function BlockEvents(b: Block): seq<Event>
  {
    match b
    case Body(lines) => ParagraphEvents(Join(lines, "\n\n"))
    case Title(text, level) => [Heading(text, level, if level == 3 then Level3Size else Level2Size)]
  }

  function Render(blocks: seq<Block>): seq<Event>
  {
    if |blocks| == 0 then [] else Render(blocks[..|blocks| - 1]) + BlockEvents(blocks[|blocks| - 1])
  }

  /** Rendering one more block appends its calls. */
  lemma RenderAppend(blocks: seq<Block>, b: Block)
    ensures Render(blocks + [b]) == Render(blocks) + BlockEvents(b)
  {
    assert (blocks + [b])[..|blocks|] == blocks;
  }

  /** The calls made so far, followed by one more block's calls, are the calls of the longer list of blocks. */
  lemma AddBlock(start: seq<Event>, blocks: seq<Block>, b: Block)
    ensures start + Render(blocks) + BlockEvents(b) == start + Render(blocks + [b])
  {
    RenderAppend(blocks, b);
  }

  /** A `###` line is also a `##` line. */
  lemma Level3IsHeading(line: string)
    requires StartsWith(line, "###")
    ensures IsHeading(line)
  {
    assert line[..2] == line[..3][..2];
  }

  /** The calls of a `###` line, as the first heading branch makes them. */
  lemma Level3Events(line: string)
    requires StartsWith(line, "###")
    ensures BlockEvents(HeadingOf(line)) == [Heading(Strip(ReplaceAll(line, "###", "")), 3, Level3Size)]
  {
  }

  /** The calls of a `##` line that is not a `###` line, as the second heading branch makes them. */
  lemma Level2Events(line: string)
    requires IsHeading(line) && !StartsWith(line, "###")
    ensures BlockEvents(HeadingOf(line)) == [Heading(Strip(ReplaceAll(line, "##", "")), 2, Level2Size)]
  {
    var text := Strip(ReplaceAll(line, "##", ""));
    assert HeadingOf(line) == Title(text, 2);
  }

  /** `process_content_lines`: headings flush the buffered paragraph; other non-blank lines are buffered. */
  method ProcessContentLines(doc: Document, lines: seq<string>)
    modifies doc
    ensures doc.events == old(doc.events) + Render(Blocks(lines))
  {
    var currentParagraph: seq<string> := [];
    ghost var blocks: seq<Block> := [];
    var i := 0;
    while i < |lines|
      invariant 0 <= i <= |lines|
      invariant Scan(lines[..i]) == (blocks, currentParagraph)
      invariant doc.events == old(doc.events) + Render(blocks)
    {
      var line := lines[i];
      ScanPrefix(lines, i);
      StepBlocks((blocks, currentParagraph), line);
      if StartsWith(line, "###") {
        Level3IsHeading(line);
        Level3Events(line);
        ghost var flushed := blocks + Flush(currentParagraph);
        if |currentParagraph| > 0 {
          AddBlock(old(doc.events), blocks, Body(currentParagraph));
          blocks := blocks + [Body(currentParagraph)];
          ProcessParagraphText(doc, Join(currentParagraph, "\n\n"));
          currentParagraph := [];
        }
        assert blocks == flushed;
        AddBlock(old(doc.events), blocks, HeadingOf(line));
        blocks := blocks + [HeadingOf(line)];
        doc.events := doc.events + [Heading(Strip(ReplaceAll(line, "###", "")), 3, Level3Size)];
      } else if StartsWith(line, "##") {
        Level2Events(line);
        ghost var flushed := blocks + Flush(currentParagraph);
        if |currentParagraph| > 0 {
          AddBlock(old(doc.events), blocks, Body(currentParagraph));
          blocks := blocks + [Body(currentParagraph)];
          ProcessParagraphText(doc, Join(currentParagraph, "\n\n"));
          currentParagraph := [];
        }
        assert blocks == flushed;
        AddBlock(old(doc.events), blocks, HeadingOf(line));
        blocks := blocks + [HeadingOf(line)];
        doc.events := doc.events + [Heading(Strip(ReplaceAll(line, "##", "")), 2, Level2Size)];
      } else if Strip(line) != "" {
        currentParagraph := currentParagraph + [line];
      }
      i := i + 1;
    }
    assert lines[..i] == lines;
    if |currentParagraph| > 0 {
      AddBlock(old(doc.events), blocks, Body(currentParagraph));
      ProcessParagraphText(doc, Join(currentParagraph, "\n\n"));
    } else {
      assert Blocks(lines) == blocks;
    }
  }

  /** The non-blank lines that are not headings, in order. */
  function BodyLines(lines: seq<string>): seq<string>
  {
    if |lines| == 0 then []
    else
      var line := lines[|lines| - 1];
      BodyLines(lines[..|lines| - 1]) + (if !IsHeading(line) && Strip(line) != "" then [line] else [])
  }

  /** The lines of the body paragraphs, end to end. */
  function ParagraphLines(blocks: seq<Block>): seq<string>
  {
    if |blocks| == 0 then []
    else
      var b := blocks[|blocks| - 1];
      ParagraphLines(blocks[..|blocks| - 1]) + (if b.Body? then b.lines else [])
  }

  /** The headings of the heading lines, in order. */
  function HeadingsOf(lines: seq<string>): seq<Block>
  {
    if |lines| == 0 then []
    else
      var line := lines[|lines| - 1];
      HeadingsOf(lines[..|lines| - 1]) + (if IsHeading(line) then [HeadingOf(line)] else [])
  }

  /** The heading blocks, in order. */
  function Titles(blocks: seq<Block>): seq<Block>
  {
    if |blocks| == 0 then []
    else
      var b := blocks[|blocks| - 1];
      Titles(blocks[..|blocks| - 1]) + (if b.Title? then [b] else [])
  }

  /** Appending a block adds its lines, or its heading, at the end. */
  lemma AppendBlock(blocks: seq<Block>, b: Block)
    ensures ParagraphLines(blocks + [b]) == ParagraphLines(blocks) + (if b.Body? then b.lines else [])
    ensures Titles(blocks + [b]) == Titles(blocks) + (if b.Title? then [b] else [])
  {
    assert (blocks + [b])[..|blocks|] == blocks;
  }

  /** Appending the flushed buffer and a heading. */
  lemma AppendFlushAndHeading(blocks: seq<Block>, buffer: seq<string>, h: Block)
    requires h.Title?
    ensures ParagraphLines(blocks + Flush(buffer) + [h]) == ParagraphLines(blocks) + buffer
    ensures Titles(blocks + Flush(buffer) + [h]) == Titles(blocks) + [h]
  {
    AppendBlock(blocks + Flush(buffer), h);
    if |buffer| > 0 {
      AppendBlock(blocks, Body(buffer));
    } else {
      assert blocks + Flush(buffer) == blocks;
    }
  }

  /** The closed paragraphs and the buffer together hold the body lines read, in order; the closed headings are the heading lines. */
  lemma {:induction false} ScanKeepsLines(lines: seq<string>)
    ensures ParagraphLines(Scan(lines).0) + Scan(lines).1 == BodyLines(lines)
    ensures Titles(Scan(lines).0) == HeadingsOf(lines)
    decreases |lines|
  {
    if |lines| > 0 {
      var init := lines[..|lines| - 1];
      var line := lines[|lines| - 1];
      ScanKeepsLines(init);
      var state := Scan(init);
      if IsHeading(line) {
        AppendFlushAndHeading(state.0, state.1, HeadingOf(line));
      }
    }
  }

  /** Closed paragraphs are never empty and never adjacent. */
  predicate WellSeparated(blocks: seq<Block>)
  {
    && (forall k :: 0 <= k < |blocks| ==> blocks[k].Body? ==> |blocks[k].lines| > 0)
    && (forall k :: 0 <= k < |blocks| - 1 ==> !(blocks[k].Body? && blocks[k + 1].Body?))
  }

  /** Appending a non-empty paragraph after a heading, or after nothing, keeps the blocks well separated. */
  lemma AppendBody(blocks: seq<Block>, buffer: seq<string>)
    requires WellSeparated(blocks) && (|blocks| > 0 ==> blocks[|blocks| - 1].Title?)
    ensures WellSeparated(blocks + Flush(buffer))
  {
    if |buffer| > 0 {
      var next := blocks + [Body(buffer)];
      assert forall k :: 0 <= k < |blocks| ==> next[k] == blocks[k];
    } else {
      assert blocks + Flush(buffer) == blocks;
    }
  }

  /** Appending a heading keeps the blocks well separated, and they then end with a heading. */
  lemma AppendTitle(blocks: seq<Block>, h: Block)
    requires WellSeparated(blocks) && h.Title?
    ensures WellSeparated(blocks + [h])
    ensures (blocks + [h])[|blocks|].Title?
  {
    var next := blocks + [h];
    assert forall k :: 0 <= k < |blocks| ==> next[k] == blocks[k];
  }

  /** Closed blocks that are well separated and end with a heading, or are none. */
  predicate Separated(blocks: seq<Block>)
  {
    WellSeparated(blocks) && (|blocks| > 0 ==> blocks[|blocks| - 1].Title?)
  }

  /** Reading one more line keeps the closed blocks separated. */
  lemma StepSeparates(state: (seq<Block>, seq<string>), line: string)
    requires Separated(state.0)
    ensures Separated(Step(state, line).0)
  {
    StepBlocks(state, line);
    if IsHeading(line) {
      AppendBody(state.0, state.1);
      AppendTitle(state.0 + Flush(state.1), HeadingOf(line));
    }
  }

  lemma {:induction false} ScanSeparates(lines: seq<string>)
    ensures Separated(Scan(lines).0)
    decreases |lines|
  {
    if |lines| > 0 {
      var init := lines[..|lines| - 1];
      ScanSeparates(init);
      StepSeparates(Scan(init), lines[|lines| - 1]);
    }
  }

  /**
   * Every body line lands in exactly one paragraph, in input order; the headings come out in
   * input order; no paragraph is empty, and two paragraphs are always separated by a heading.
   */
  lemma BlocksAccountForLines(lines: seq<string>)
    ensures ParagraphLines(Blocks(lines)) == BodyLines(lines)
    ensures Titles(Blocks(lines)) == HeadingsOf(lines)
    ensures WellSeparated(Blocks(lines))
  {
    ScanKeepsLines(lines);
    ScanSeparates(lines);
    var state := Scan(lines);
    AppendBody(state.0, state.1);
    if |state.1| > 0 {
      AppendBlock(state.0, Body(state.1));
    } else {
      assert Blocks(lines) == state.0;
    }
  }

  /** A heading line's text carries no surrounding white space, and its level follows the marker. */
  lemma HeadingShape(line: string)
    requires IsHeading(line)
    ensures HeadingOf(line).level == (if StartsWith(line, "###") then 3 else 2)
    ensures |HeadingOf(line).text| > 0 ==>
      !IsSpace(HeadingOf(line).text[0]) && !IsSpace(HeadingOf(line).text[|HeadingOf(line).text| - 1])
  {
    if StartsWith(line, "###") {
      StripEnds(ReplaceAll(line, "###", ""));
    } else {
      StripEnds(ReplaceAll(line, "##", ""));
    }
  }
}
