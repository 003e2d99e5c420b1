/** Chart category labels: truncation to a character budget and wrapping every few words. */
module ChartUtils {
  import opened Text

  /** The one-character ellipsis that marks a truncated label. */
  const Ellipsis: string := "…"

  /** Where Python's slice `s[:end]` stops, for a text of length `n`; a negative end counts from the back. */
  function SliceEnd(n: nat, end: int): (k: nat)
    ensures k <= n
    ensures 0 <= end <= n ==> k == end
    ensures end < 0 && n + end >= 0 ==> k == n + end
  {
    if end < 0 then (if n + end < 0 then 0 else n + end) else if end > n then n else end
  }

  /** The label cut to `maxChars` characters, the last of which becomes an ellipsis; short text is kept. */
  function Truncate(text: string, maxChars: int): (r: string)
    ensures |text| <= maxChars ==> r == text
    ensures |text| > maxChars ==> r == text[..SliceEnd(|text|, maxChars - 1)] + Ellipsis
    ensures |text| > maxChars >= 1 ==>
      |r| == maxChars && r[..maxChars - 1] == text[..maxChars - 1] && r[maxChars - 1] == '…'
  {
    if |text| > maxChars then text[..SliceEnd(|text|, maxChars - 1)] + Ellipsis else text
  }

  /** The words cut into consecutive groups of `size`, `words[i:i + size]` for `i` in steps of `size`. */
  function Chunks(ws: seq<string>, size: int): seq<seq<string>>
    requires size >= 1
    decreases |ws|
  {
    if |ws| == 0 then [] else if |ws| <= size then [ws] else [ws[..size]] + Chunks(ws[size..], size)
  }

  /** There are `ceil(|ws| / size)` groups, each of one to `size` words; only the last may be short. */
  lemma {:induction false} ChunksShape(ws: seq<string>, size: int)
    requires size >= 1
    ensures |Chunks(ws, size)| == (|ws| + size - 1) / size
    ensures forall k :: 0 <= k < |Chunks(ws, size)| ==> 1 <= |Chunks(ws, size)[k]| <= size
    ensures forall k :: 0 <= k < |Chunks(ws, size)| - 1 ==> |Chunks(ws, size)[k]| == size
    decreases |ws|
  {
    if |ws| == 0 {
      DivUnique(size - 1, size, 0, size - 1);
    } else if |ws| <= size {
      DivUnique(|ws| + size - 1, size, 1, |ws| - 1);
    } else {
      ChunksShape(ws[size..], size);
      DivStep(|ws| - 1, size);
      var r := Chunks(ws, size);
      assert forall k :: 1 <= k < |r| ==> r[k] == Chunks(ws[size..], size)[k - 1];
    }
  }

  /** `d * k` is at least `d` for a positive `k`. */
  lemma {:induction false} MulAtLeast(d: int, k: int)
    requires d >= 1 && k >= 1
    ensures d * k >= d
    decreases k
  {
    if k > 1 {
      MulAtLeast(d, k - 1);
      assert d * k == d * (k - 1) + d;
    }
  }

  /** The quotient is the one `q` with `n == d * q + r` and `0 <= r < d`. */
  lemma DivUnique(n: int, d: int, q: int, r: int)
    requires d >= 1 && 0 <= r < d && n == d * q + r
    ensures n / d == q
  {
    var q0, r0 := n / d, n % d;
    assert d * (q - q0) == r0 - r by {
      assert n == d * q0 + r0;
      assert d * (q - q0) == d * q - d * q0;
    }
    if q > q0 {
      MulAtLeast(d, q - q0);
    } else if q < q0 {
      MulAtLeast(d, q0 - q);
    }
  }

  lemma DivStep(x: int, d: int)
    requires d >= 1 && x >= 0
    ensures (x + d) / d == 1 + x / d
  {
    var q, r := x / d, x % d;
    assert x + d == d * (q + 1) + r;
    DivUnique(x + d, d, q + 1, r);
  }

  /** The groups, laid end to end. */
  function Concat(groups: seq<seq<string>>): seq<string>
  {
    if |groups| == 0 then [] else groups[0] + Concat(groups[1..])
  }

  /** Grouping loses, duplicates and reorders no word. */
  lemma {:induction false} ChunksConcat(ws: seq<string>, size: int)
    requires size >= 1
    ensures Concat(Chunks(ws, size)) == ws
    decreases |ws|
  {
    if |ws| == 0 {
    } else if |ws| <= size {
      assert Concat([ws]) == ws + Concat([]);
    } else {
      ChunksConcat(ws[size..], size);
      var r := Chunks(ws, size);
      assert r[1..] == Chunks(ws[size..], size);
      assert ws == ws[..size] + ws[size..];
    }
  }

  /** The group that starts at the front is the slice `ws[0:size]`, clipped to the words there are. */
  lemma ChunksStep(ws: seq<string>, size: int)
    requires size >= 1 && |ws| > 0
    ensures Chunks(ws, size) ==
      [ws[..if size < |ws| then size else |ws|]] + Chunks(ws[if size < |ws| then size else |ws|..], size)
  {
    if |ws| <= size {
      assert ws[|ws|..] == [];
      assert ws[..|ws|] == ws;
    }
  }

  /** The lines from word `i` on are the slice `words[i:i + size]` joined, then the lines after it. */
  lemma LinesStep(words: seq<string>, i: int, size: int)
    requires size >= 1 && 0 <= i < |words|
    ensures var stop := if i + size < |words| then i + size else |words|;
      LineTexts(Chunks(words[i..], size)) == [Join(words[i..stop], " ")] + LineTexts(Chunks(words[stop..], size))
  {
    var stop := if i + size < |words| then i + size else |words|;
    ChunksStep(words[i..], size);
    assert words[i..][..stop - i] == words[i..stop];
    assert words[i..][stop - i..] == words[stop..];
  }

  /** One line per group: its words joined by single spaces. */
  function LineTexts(groups: seq<seq<string>>): (r: seq<string>)
    ensures |r| == |groups|
    ensures forall k :: 0 <= k < |r| ==> r[k] == Join(groups[k], " ")
  {
    if |groups| == 0 then [] else [Join(groups[0], " ")] + LineTexts(groups[1..])
  }

  /**
   * The processed label: truncated, then, unless `breakEvery` is 0, its words in groups of
   * `breakEvery` per line and the lines joined by `<br>`; a negative step gives no line at all.
   */
  function Label(text: string, maxChars: int, breakEvery: int): string
  {
    var cut := Truncate(text, maxChars);
    if breakEvery == 0 then cut
    else if breakEvery < 0 then ""
    else Join(LineTexts(Chunks(Words(cut), breakEvery)), "<br>")
  }

  /** The label built as the chart code does: a loop that steps through the words `breakEvery` at a time. */
  method ProcessLabel(text: string, maxChars: int, breakEvery: int) returns (r: string)
    ensures r == Label(text, maxChars, breakEvery)
  {
    var cut := text;
    if |cut| > maxChars {
      cut := cut[..SliceEnd(|cut|, maxChars - 1)] + Ellipsis;
    }
    var words := Words(cut);
    if breakEvery == 0 {
      return cut;
    }
    var lines: seq<string> := [];
    if breakEvery > 0 {
      lines := WrapWords(words, breakEvery);
    }
    return Join(lines, "<br>");
  }

  /** The loop of `process_label`: `words[i:i + breakEvery]` joined, for `i` in steps of `breakEvery`. */
  method WrapWords(words: seq<string>, breakEvery: int) returns (lines: seq<string>)
    requires breakEvery >= 1
    ensures lines == LineTexts(Chunks(words, breakEvery))
  {
    lines := [];
    var i := 0;
    ghost var from := 0;
    while i < |words|
      invariant 0 <= i && from == (if i < |words| then i else |words|)
      invariant lines + LineTexts(Chunks(words[from..], breakEvery)) == LineTexts(Chunks(words, breakEvery))
      decreases |words| - i
    {
      var stop := if i + breakEvery < |words| then i + breakEvery else |words|;
      LinesStep(words, i, breakEvery);
      var line := Join(words[i..stop], " ");
      AppendOne(lines, line, LineTexts(Chunks(words[stop..], breakEvery)));
      lines := lines + [line];
      i := i + breakEvery;
      from := stop;
    }
    assert words[from..] == [];
    assert lines + LineTexts(Chunks(words[from..], breakEvery)) == lines;
  }

  lemma AppendOne(a: seq<string>, x: string, b: seq<string>)
    ensures a + ([x] + b) == (a + [x]) + b
  {
  }

  /** A label of blank text that needs no truncation is empty once it is wrapped. */
  lemma BlankLabelIsEmpty(text: string, maxChars: int, breakEvery: int)
    requires Blank(text) && |text| <= maxChars && breakEvery != 0
    ensures Label(text, maxChars, breakEvery) == ""
  {
    WordsFacts(text);
  }

  /** A label that is wrapped has one line per group of `breakEvery` words, rounding up. */
  lemma LineCount(text: string, maxChars: int, breakEvery: int)
    requires breakEvery >= 1
    ensures |LineTexts(Chunks(Words(Truncate(text, maxChars)), breakEvery))| ==
      (|Words(Truncate(text, maxChars))| + breakEvery - 1) / breakEvery
  {
    ChunksShape(Words(Truncate(text, maxChars)), breakEvery);
  }

  /** A word followed by a space starts with exactly that word. */
  lemma {:induction false} WordLengthOfWord(w: string, rest: string)
    requires forall i :: 0 <= i < |w| ==> !IsSpace(w[i])
    requires |rest| == 0 || IsSpace(rest[0])
    ensures WordLength(w + rest) == |w|
    decreases |w|
  {
    if |w| > 0 {
      assert (w + rest)[1..] == w[1..] + rest;
      WordLengthOfWord(w[1..], rest);
    }
  }

  /** Words joined by single spaces split back into the same words. */
  lemma {:induction false} WordsOfJoin(ws: seq<string>)
    requires forall k :: 0 <= k < |ws| ==> |ws[k]| > 0 && forall i :: 0 <= i < |ws[k]| ==> !IsSpace(ws[k][i])
    ensures Words(Join(ws, " ")) == ws
    decreases |ws|
  {
    if |ws| == 1 {
      WordLengthOfWord(ws[0], "");
      assert ws[0][|ws[0]|..] == "";
      assert ws[0][..|ws[0]|] == ws[0];
    } else if |ws| > 1 {
      var rest := Join(ws[1..], " ");
      var s := ws[0] + " " + rest;
      WordLengthOfWord(ws[0], " " + rest);
      assert s == ws[0] + (" " + rest);
      assert s[..|ws[0]|] == ws[0];
      assert s[|ws[0]|..] == " " + rest;
      assert (" " + rest)[1..] == rest;
      WordsOfJoin(ws[1..]);
      assert Words(s) == [ws[0]] + ws[1..];
    }
  }

  /** Each line of a wrapped label holds exactly the words of its group: between one and `breakEvery` of them. */
  lemma {:induction false} LinesHoldTheirWords(text: string, maxChars: int, breakEvery: int)
    requires breakEvery >= 1
    ensures forall k :: 0 <= k < |LineTexts(Chunks(Words(Truncate(text, maxChars)), breakEvery))| ==>
      var line := LineTexts(Chunks(Words(Truncate(text, maxChars)), breakEvery))[k];
      Words(line) == Chunks(Words(Truncate(text, maxChars)), breakEvery)[k] && 1 <= |Words(line)| <= breakEvery
  {
    var ws := Words(Truncate(text, maxChars));
    var groups := Chunks(ws, breakEvery);
    WordsFacts(Truncate(text, maxChars));
    ChunksShape(ws, breakEvery);
    forall k | 0 <= k < |groups|
      ensures Words(Join(groups[k], " ")) == groups[k]
    {
      forall j | 0 <= j < |groups[k]|
        ensures groups[k][j] in ws
      {
        ChunkElement(ws, breakEvery, k, j);
      }
      WordsOfJoin(groups[k]);
    }
  }

  /** Every word of every group is one of the grouped words. */
  lemma {:induction false} ChunkElement(ws: seq<string>, size: int, k: int, j: int)
    requires size >= 1 && 0 <= k < |Chunks(ws, size)| && 0 <= j < |Chunks(ws, size)[k]|
    ensures Chunks(ws, size)[k][j] in ws
    decreases |ws|
  {
    if |ws| > size && k > 0 {
      assert Chunks(ws, size)[k] == Chunks(ws[size..], size)[k - 1];
      ChunkElement(ws[size..], size, k - 1, j);
    } else if |ws| > size {
      assert Chunks(ws, size)[0] == ws[..size];
    }
  }

  /** `get_splits`: the character budget and wrap step for a chart showing `labels` categories. */
  function GetSplits(labels: int): (r: (int, int))
    ensures labels <= 2 ==> r == (60, 3)
    ensures labels == 3 ==> r == (40, 2)
    ensures labels == 4 ==> r == (30, 2)
    ensures labels >= 5 ==> r == (30, 1)
  {
    if labels <= 2 then (60, 3) else if labels <= 3 then (40, 2) else if labels <= 4 then (30, 2) else (30, 1)
  }

  /** The more categories, the shorter and narrower each label: the budget and the step never grow. */
  lemma SplitsShrink(m: int, n: int)
    requires m <= n
    ensures GetSplits(n).0 <= GetSplits(m).0 && GetSplits(n).1 <= GetSplits(m).1
    ensures GetSplits(n).1 >= 1 && GetSplits(n).0 >= 30
  {
  }

  /** With the splits for any number of categories, a long label is cut to exactly its budget and always wrapped. */
  lemma SplitLabels(text: string, labels: int)
    ensures |Truncate(text, GetSplits(labels).0)| <= GetSplits(labels).0
    ensures Label(text, GetSplits(labels).0, GetSplits(labels).1) ==
      Join(LineTexts(Chunks(Words(Truncate(text, GetSplits(labels).0)), GetSplits(labels).1)), "<br>")
  {
  }
}
