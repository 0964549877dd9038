/** Wrapping styled Markdown spans to a column of terminal cells. */
module Wrapping {
  import opened Text

  datatype Style = Style(foreground: nat, modifiers: nat)
  const RAW := Style(0, 0)

  datatype Span = Span(content: string, style: Style)

  /** A drawn line: the prefix span and the text spans after it. */
  datatype Line = Line(prefix: Span, text: seq<Span>)

  /** Cells a character takes; the Unicode width table is a parameter. */
  type WidthTable = char -> nat

  function Width(cw: WidthTable, s: string): (w: nat) {
    if s == "" then 0 else Width(cw, s[..|s| - 1]) + cw(s[|s| - 1])
  }

  function SpansWidth(cw: WidthTable, spans: seq<Span>): (w: nat) {
    if spans == [] then 0
    else SpansWidth(cw, spans[..|spans| - 1]) + Width(cw, spans[|spans| - 1].content)
  }

  function LineWidth(cw: WidthTable, line: Line): (w: nat) {
    Width(cw, line.prefix.content) + SpansWidth(cw, line.text)
  }

  lemma {:induction false} WidthAppend(cw: WidthTable, s: string, t: string)
    ensures Width(cw, s + t) == Width(cw, s) + Width(cw, t)
  {
    if t == "" {
      assert s + t == s;
    } else {
      WidthAppend(cw, s, t[..|t| - 1]);
      assert (s + t)[..|s + t| - 1] == s + t[..|t| - 1];
    }
  }

  /** Widths add up character by character. */
  lemma {:induction false} WidthOfOne(cw: WidthTable, c: char)
    ensures Width(cw, "") == 0 && Width(cw, [c]) == cw(c)
  {
    assert [c][..0] == "";
  }

  /** A line is as wide as its prefix and its spans. */
  lemma {:induction false} LineWidthAddsUp(cw: WidthTable, prefix: Span, text: seq<Span>, span: Span)
    ensures LineWidth(cw, Line(prefix, [])) == Width(cw, prefix.content)
    ensures LineWidth(cw, Line(prefix, text + [span])) == LineWidth(cw, Line(prefix, text)) + Width(cw, span.content)
  {
    hide Width;
    assert (text + [span])[..|text|] == text;
  }

  // ---------------------------------------------------------------------------
  // Styled characters
  // ---------------------------------------------------------------------------

  type Cell = (char, Style)

  function Cells(s: string, style: Style): (cells: seq<Cell>)
    ensures |cells| == |s|
  {
    seq(|s|, i requires 0 <= i < |s| => (s[i], style))
  }

  function SpanCells(spans: seq<Span>): seq<Cell> {
    if spans == [] then []
    else SpanCells(spans[..|spans| - 1]) + Cells(spans[|spans| - 1].content, spans[|spans| - 1].style)
  }

  predicate BlankCells(cells: seq<Cell>) {
    forall i :: 0 <= i < |cells| ==> IsSpace(cells[i].0)
  }

  /** Everything the lines draw after their prefixes, each line followed by what was left out after it. */
  function Reassembled(lines: seq<Line>, gaps: seq<seq<Cell>>): seq<Cell>
    requires |lines| == |gaps|
  {
    if lines == [] then []
    else
      var n := |lines| - 1;
      Reassembled(lines[..n], gaps[..n]) + SpanCells(lines[n].text) + gaps[n]
  }

  predicate AllBlank(gaps: seq<seq<Cell>>) {
    forall i :: 0 <= i < |gaps| ==> BlankCells(gaps[i])
  }

  /** The visible characters with their styles. */
  function Ink(cells: seq<Cell>): seq<Cell> {
    if cells == [] then []
    else
      var n := |cells| - 1;
      if IsSpace(cells[n].0) then Ink(cells[..n]) else Ink(cells[..n]) + [cells[n]]
  }

  function LinesInk(lines: seq<Line>): seq<Cell>
  {
    if lines == [] then []
    else var n := |lines| - 1; LinesInk(lines[..n]) + Ink(SpanCells(lines[n].text))
  }

  lemma {:induction false} InkAppend(a: seq<Cell>, b: seq<Cell>)
    ensures Ink(a + b) == Ink(a) + Ink(b)
  {
    if b == [] {
      assert a + b == a;
    } else {
      InkAppend(a, b[..|b| - 1]);
      assert (a + b)[..|a + b| - 1] == a + b[..|b| - 1];
    }
  }

  lemma {:induction false} BlankHasNoInk(cells: seq<Cell>)
    requires BlankCells(cells)
    ensures Ink(cells) == []
  {
    if cells != [] {
      BlankHasNoInk(cells[..|cells| - 1]);
    }
  }

  lemma {:induction false} ReassembledInk(lines: seq<Line>, gaps: seq<seq<Cell>>)
    requires |lines| == |gaps| && AllBlank(gaps)
    ensures Ink(Reassembled(lines, gaps)) == LinesInk(lines)
  {
    if lines != [] {
      var n := |lines| - 1;
      ReassembledInk(lines[..n], gaps[..n]);
      InkAppend(Reassembled(lines[..n], gaps[..n]) + SpanCells(lines[n].text), gaps[n]);
      InkAppend(Reassembled(lines[..n], gaps[..n]), SpanCells(lines[n].text));
      BlankHasNoInk(gaps[n]);
    }
  }

  // ---------------------------------------------------------------------------
  // Words and cuts
  // ---------------------------------------------------------------------------

  // A word is one blank, or a stretch without blanks.
  predicate IsWord(w: string) {
    w != "" && (w == " " || ' ' !in w)
  }

  // Words of a text: no two stretches stand next to each other.
  predicate WordSequence(words: seq<string>) {
    (forall i :: 0 <= i < |words| ==> IsWord(words[i]))
    && (forall i :: 0 < i < |words| ==> words[i - 1] == " " || words[i] == " ")
  }

  predicate EndsInBlank(words: seq<string>) {
    words != [] ==> words[|words| - 1] == " "
  }

  lemma {:induction false} PushWord(words: seq<string>, w: string)
    requires WordSequence(words) && IsWord(w) && (EndsInBlank(words) || w == " ")
    ensures WordSequence(words + [w]) && Concat(words + [w]) == Concat(words) + w
    ensures w == " " ==> EndsInBlank(words + [w])
  {
    ConcatAppend(words, [w]);
  }

  // The words collected so far once the pending stretch is added.
  function Flushed(words: seq<string>, word: string): seq<string> {
    if word == "" then words else words + [word]
  }

  lemma {:induction false} FlushWord(words: seq<string>, word: string)
    requires WordSequence(words) && EndsInBlank(words) && ' ' !in word
    ensures WordSequence(Flushed(words, word)) && Concat(Flushed(words, word)) == Concat(words) + word
  {
    if word != "" {
      PushWord(words, word);
    }
  }

  lemma {:induction false} NoWords()
    ensures Concat([]) == "" && WordSequence([]) && EndsInBlank([])
  {
  }

  method SplitWords(text: string) returns (out: seq<string>)
    ensures Concat(out) == text
    ensures WordSequence(out)
  {
    hide Concat, WordSequence, EndsInBlank;
    out := [];
    var word := "";
    NoWords();
    for i := 0 to |text|
      invariant Concat(out) + word == text[..i]
      invariant WordSequence(out) && EndsInBlank(out) && ' ' !in word
    {
      var c := text[i];
      ghost var before := text[..i];
      assert text[..i + 1] == before + [c];
      if c == ' ' {
        FlushWord(out, word);
        if word != "" {
          out := out + [word];
          word := "";
        }
        PushWord(out, " ");
        out := out + [" "];
      } else {
        word := word + [c];
      }
    }
    assert text[..|text|] == text;
    FlushWord(out, word);
    if word != "" {
      out := out + [word];
    }
  }

  // Word starts and ends of a text, told without splitting it.
  predicate IsWordAt(s: string, q: nat, e: nat) {
    q < e <= |s| && IsWord(s[q..e])
    && (q == 0 || s[q - 1] == ' ' || s[q] == ' ') && (e == |s| || s[e - 1] == ' ' || s[e] == ' ')
  }

  lemma {:induction false} ConcatAround(words: seq<string>, j: nat)
    requires j < |words|
    ensures var s, q := Concat(words), |Concat(words[..j])|;
            q + |words[j]| <= |s| && s[..q] == Concat(words[..j]) && s[q..q + |words[j]|] == words[j]
    ensures Concat(words[..j + 1]) == Concat(words[..j]) + words[j]
  {
    hide Concat;
    var a, w, b := words[..j], words[j], words[j + 1..];
    ConcatAppend(a, [w]);
    ConcatAppend(a + [w], b);
    ConcatOne(w);
    assert a + [w] == words[..j + 1] && a + [w] + b == words;
    var s, q := Concat(words), |Concat(a)|;
    assert s == Concat(a) + w + Concat(b);
  }

  lemma {:induction false} ConcatOne(w: string)
    ensures Concat([w]) == w && Concat([]) == ""
  {
  }

  lemma {:induction false} WordsAreWords(words: seq<string>, i: nat)
    requires WordSequence(words) && i < |words|
    ensures IsWord(words[i]) && words[i] != ""
  {
  }

  // A word starts at the start of the text, with a blank, or after one; and likewise ends.
  lemma {:induction false} WordStarts(words: seq<string>, j: nat)
    requires WordSequence(words) && j < |words|
    ensures var s, q := Concat(words), |Concat(words[..j])|;
            q < |s| && s[q] == words[j][0] && (q == 0 || s[q - 1] == ' ' || s[q] == ' ')
  {
    hide Concat, IsWord;
    WordsAreWords(words, j);
    ConcatAround(words, j);
    var s, q := Concat(words), |Concat(words[..j])|;
    assert s[q] == s[q..q + |words[j]|][0];
    if j > 0 {
      var w := words[j - 1];
      ConcatAround(words, j - 1);
      WordsAreWords(words, j - 1);
      assert s[q - 1] == s[q - |w|..q][|w| - 1] == w[|w| - 1];
    } else {
      ConcatOne("");
    }
  }

  lemma {:induction false} WordEnds(words: seq<string>, j: nat)
    requires WordSequence(words) && j < |words|
    ensures var s, e := Concat(words), |Concat(words[..j + 1])|;
            0 < e <= |s| && s[e - 1] == words[j][|words[j]| - 1] && (e == |s| || s[e - 1] == ' ' || s[e] == ' ')
  {
    hide Concat, IsWord;
    WordsAreWords(words, j);
    ConcatAround(words, j);
    var s, e, w := Concat(words), |Concat(words[..j + 1])|, words[j];
    assert s[e - 1] == s[e - |w|..e][|w| - 1];
    if j + 1 < |words| {
      WordStarts(words, j + 1);
    } else {
      assert words[..j + 1] == words;
    }
  }

  // Each of the words stands where those before it end.
  lemma {:induction false} WordIsAt(words: seq<string>, j: nat)
    requires WordSequence(words) && j < |words|
    ensures var s, q := Concat(words), |Concat(words[..j])|;
            q + |words[j]| <= |s| && s[..q] == Concat(words[..j]) && s[q..q + |words[j]|] == words[j]
            && IsWordAt(s, q, q + |words[j]|)
    ensures Concat(words[..j + 1]) == Concat(words[..j]) + words[j]
  {
    hide Concat, IsWord, WordSequence;
    WordsAreWords(words, j);
    ConcatAround(words, j);
    WordStarts(words, j);
    WordEnds(words, j);
  }

  /** The longest leading part of `s` that fits in `width` cells, and the rest. */
  method SplitAtWidth(cw: WidthTable, s: string, width: nat) returns (head: string, tail: string)
    ensures s == head + tail
    ensures Width(cw, head) <= width
    ensures tail != "" ==> Width(cw, head) + cw(tail[0]) > width
  {
    head := "";
    var used := 0;
    var i := 0;
    while i < |s|
      invariant i <= |s| && head == s[..i]
      invariant used == Width(cw, head) <= width
    {
      var w := cw(s[i]);
      if used + w > width {
        break;
      }
      assert s[..i + 1] == s[..i] + [s[i]];
      head := head + [s[i]];
      used := used + w;
      i := i + 1;
    }
    tail := s[i..];
  }

  const ELLIPSIS := '\U{2026}'

  /** `s` when it fits, else its longest leading part that leaves a cell for the ellipsis. */
  method TruncateTo(cw: WidthTable, s: string, width: nat) returns (out: string)
    ensures Width(cw, s) <= width ==> out == s
    ensures Width(cw, s) > width ==>
              exists n :: 0 <= n < |s| && out == s[..n] + ['\U{2026}']
                          && Width(cw, s[..n]) <= (if width == 0 then 0 else width - 1) < Width(cw, s[..n + 1])
    ensures cw('\U{2026}') == 1 && width >= 1 ==> Width(cw, out) <= width
  {
    if Width(cw, s) <= width {
      return s;
    }
    out := "";
    var used := 0;
    var i := 0;
    var limit := if width == 0 then 0 else width - 1;
    while i < |s|
      invariant i <= |s| && out == s[..i]
      invariant used == Width(cw, out) <= limit
    {
      assert s[..i + 1] == s[..i] + [s[i]];
      var w := cw(s[i]);
      if used + w > limit {
        break;
      }
      out := out + [s[i]];
      used := used + w;
      i := i + 1;
    }
    assert s[..|s|] == s;
    WidthAppend(cw, out, [ELLIPSIS]);
    assert [ELLIPSIS][..0] == "";
    out := out + [ELLIPSIS];
  }

  // ---------------------------------------------------------------------------
  // Widths of styled text
  // ---------------------------------------------------------------------------

  function CellsWidth(cw: WidthTable, cells: seq<Cell>): nat {
    if cells == [] then 0 else CellsWidth(cw, cells[..|cells| - 1]) + cw(cells[|cells| - 1].0)
  }

  lemma {:induction false} CellsWidthAppend(cw: WidthTable, a: seq<Cell>, b: seq<Cell>)
    ensures CellsWidth(cw, a + b) == CellsWidth(cw, a) + CellsWidth(cw, b)
  {
    if b == [] {
      assert a + b == a;
    } else {
      CellsWidthAppend(cw, a, b[..|b| - 1]);
      assert (a + b)[..|a + b| - 1] == a + b[..|b| - 1];
    }
  }

  lemma {:induction false} CellsWidthOfString(cw: WidthTable, s: string, style: Style)
    ensures CellsWidth(cw, Cells(s, style)) == Width(cw, s)
  {
    if s != "" {
      CellsWidthOfString(cw, s[..|s| - 1], style);
      assert Cells(s, style)[..|s| - 1] == Cells(s[..|s| - 1], style);
    }
  }

  lemma {:induction false} CellsWidthOfSpans(cw: WidthTable, spans: seq<Span>)
    ensures CellsWidth(cw, SpanCells(spans)) == SpansWidth(cw, spans)
  {
    if spans != [] {
      var last := spans[|spans| - 1];
      CellsWidthOfSpans(cw, spans[..|spans| - 1]);
      CellsWidthAppend(cw, SpanCells(spans[..|spans| - 1]), Cells(last.content, last.style));
      CellsWidthOfString(cw, last.content, last.style);
    }
  }

  lemma {:induction false} CharFits(cw: WidthTable, s: string, k: nat)
    requires k < |s|
    ensures cw(s[k]) <= Width(cw, s)
  {
    if k < |s| - 1 {
      CharFits(cw, s[..|s| - 1], k);
    }
  }

  // ---------------------------------------------------------------------------
  // Wrapping
  // ---------------------------------------------------------------------------

  /** The column text is wrapped to, and the prefixes of its first and later lines. */
  datatype Column = Column(cw: WidthTable, width: nat, first: string, rest: string) {
    function Margin(): nat {
      Width(cw, rest)
    }

    /** Both prefixes take the same room. */
    predicate Even() {
      Width(cw, first) == Margin()
    }
  }

  /** What the wrapping loop works on: finished lines, the line being filled, and its fill mark. */
  datatype Draft = Draft(lines: seq<Line>, current: Line, used: nat)

  /** Before its last `n` characters the line holds nothing beyond the margin. */
  predicate IsAtMargin(col: Column, line: Line, n: nat) {
    var cells := SpanCells(line.text);
    |cells| <= n || Width(col.cw, line.prefix.content) + CellsWidth(col.cw, cells[..|cells| - n]) <= col.Margin()
  }

  /** The line ending at `j` in the text of the spans has no room for what comes next there. Either that is a
      word, and the line is not empty; or it is the rest of one too wide for a line, of whose first part the line,
      empty before, has taken all that fits. What is left out after it is that word if the word is blank, and
      nothing otherwise. */
  predicate HasNoRoomFor(col: Column, spans: seq<Span>, line: Line, j: nat, gap: seq<Cell>, k: nat, q: nat, e: nat) {
    k < |spans| && |SpanCells(spans[..k])| <= j
    && var s, p, w := spans[k].content, j - |SpanCells(spans[..k])|, LineWidth(col.cw, line);
    q <= p < e <= |s| && IsWordAt(s, q, e)
    && gap == (if Blank(s[q..e]) then Cells(s[p..e], spans[k].style) else [])
    && w + Width(col.cw, s[p..e]) > col.width
    && (p > q ==> w + col.cw(s[p]) > col.width)
    && (col.Margin() < col.width ==> if p == q then w > col.Margin() else IsAtMargin(col, line, p - q))
  }

  ghost predicate MustEnd(col: Column, spans: seq<Span>, line: Line, j: nat, gap: seq<Cell>) {
    exists k: nat, q: nat, e: nat :: HasNoRoomFor(col, spans, line, j, gap, k, q, e)
  }

  /** Each of the first `n` lines ends where it must. */
  ghost predicate AllMustEnd(col: Column, spans: seq<Span>, lines: seq<Line>, gaps: seq<seq<Cell>>, n: nat)
    requires |gaps| == |lines| && n <= |lines|
  {
    forall i :: 0 <= i < n ==>
      MustEnd(col, spans, lines[i], |Reassembled(lines[..i], gaps[..i]) + SpanCells(lines[i].text)|, gaps[i])
  }

  /** A draft draws the text taken so far, but for blank words left out after finished lines, each of which
      had to end. */
  ghost predicate DrawsWith(col: Column, spans: seq<Span>, d: Draft, taken: seq<Cell>, gaps: seq<seq<Cell>>) {
    |gaps| == |d.lines| && AllBlank(gaps) && Reassembled(d.lines, gaps) + SpanCells(d.current.text) == taken
    && AllMustEnd(col, spans, d.lines, gaps, |d.lines|)
  }

  ghost predicate Draws(col: Column, spans: seq<Span>, d: Draft, taken: seq<Cell>) {
    exists gaps: seq<seq<Cell>> :: DrawsWith(col, spans, d, taken, gaps)
  }

  /** A line is wider than the column only by a single character that does not fit beside the margin. */
  predicate IsBounded(col: Column, line: Line) {
    LineWidth(col.cw, line) <= col.width
    || exists cell :: cell in SpanCells(line.text) && LineWidth(col.cw, line) <= col.Margin() + col.cw(cell.0)
  }

  // The fill mark bounds the line below the column; at the column a single character may pass it.
  predicate Bounded(col: Column, d: Draft) {
    col.Margin() <= d.used <= col.width
    && (forall i :: 0 <= i < |d.lines| ==> IsBounded(col, d.lines[i]))
    && IsBounded(col, d.current)
    && (d.used < col.width ==> LineWidth(col.cw, d.current) <= d.used)
  }

  predicate Prefixed(lines: seq<Line>, first: string, rest: string) {
    forall i :: 0 <= i < |lines| ==> lines[i].prefix == Span(if i == 0 then first else rest, RAW)
  }

  predicate PrefixedDraft(col: Column, d: Draft) {
    Prefixed(d.lines, col.first, col.rest)
    && d.current.prefix == Span(if d.lines == [] then col.first else col.rest, RAW)
  }

  // With no room beside the margin, nothing is ever finished or left out.
  predicate Unbroken(d: Draft, margin: nat, taken: seq<Cell>) {
    d.lines == [] && d.used <= margin && SpanCells(d.current.text) == taken
  }

  function Push(d: Draft, s: string, style: Style, used: nat): Draft {
    d.(current := d.current.(text := d.current.text + [Span(s, style)]), used := used)
  }

  lemma {:induction false} PushedWidth(cw: WidthTable, line: Line, s: string, style: Style)
    ensures LineWidth(cw, line.(text := line.text + [Span(s, style)])) == LineWidth(cw, line) + Width(cw, s)
    ensures SpanCells(line.text + [Span(s, style)]) == SpanCells(line.text) + Cells(s, style)
  {
    assert (line.text + [Span(s, style)])[..|line.text|] == line.text;
  }

  lemma {:induction false} DrawsPush(col: Column, spans: seq<Span>, d: Draft, taken: seq<Cell>, s: string, style: Style, used: nat)
    requires Draws(col, spans, d, taken)
    ensures Draws(col, spans, Push(d, s, style, used), taken + Cells(s, style))
  {
    var gaps :| DrawsWith(col, spans, d, taken, gaps);
    hide Reassembled, AllBlank, SpanCells, LineWidth, Width, AllMustEnd;
    PushedWidth(col.cw, d.current, s, style);
    Regroup(Reassembled(d.lines, gaps), SpanCells(d.current.text), Cells(s, style));
    assert DrawsWith(col, spans, Push(d, s, style, used), taken + Cells(s, style), gaps);
  }

  function Flush(d: Draft, prefix: string, used: nat): Draft {
    Draft(d.lines + [d.current], Line(Span(prefix, RAW), []), used)
  }

  lemma {:induction false} ReassembledPush(lines: seq<Line>, gaps: seq<seq<Cell>>, line: Line, gap: seq<Cell>)
    requires |lines| == |gaps|
    ensures Reassembled(lines + [line], gaps + [gap]) == Reassembled(lines, gaps) + SpanCells(line.text) + gap
  {
    assert (lines + [line])[..|lines|] == lines && (gaps + [gap])[..|lines|] == gaps;
  }

  lemma {:induction false} MustEndPush(col: Column, spans: seq<Span>, lines: seq<Line>, gaps: seq<seq<Cell>>, line: Line, gap: seq<Cell>)
    requires |gaps| == |lines| && AllMustEnd(col, spans, lines, gaps, |lines|)
    ensures AllMustEnd(col, spans, lines + [line], gaps + [gap], |lines|)
    ensures MustEnd(col, spans, line, |Reassembled(lines, gaps) + SpanCells(line.text)|, gap) ==>
              AllMustEnd(col, spans, lines + [line], gaps + [gap], |lines| + 1)
  {
    hide MustEnd, Reassembled, SpanCells;
    var after, gaps' := lines + [line], gaps + [gap];
    forall i | 0 <= i <= |lines|
      ensures after[..i] == lines[..i] && gaps'[..i] == gaps[..i]
      ensures i < |lines| ==> after[i] == lines[i] && gaps'[i] == gaps[i]
    {
    }
    assert lines[..|lines|] == lines && gaps[..|lines|] == gaps;
  }

  // Finishing a line leaves out `dropped`, a blank or nothing, after it.
  lemma {:induction false} DrawsFlush(col: Column, spans: seq<Span>, d: Draft, taken: seq<Cell>, prefix: string, used: nat, dropped: seq<Cell>)
    requires Draws(col, spans, d, taken) && BlankCells(dropped) && MustEnd(col, spans, d.current, |taken|, dropped)
    ensures Draws(col, spans, Flush(d, prefix, used), taken + dropped)
  {
    hide MustEnd, AllMustEnd, Reassembled, AllBlank, SpanCells, BlankCells;
    var gaps :| DrawsWith(col, spans, d, taken, gaps);
    ReassembledPush(d.lines, gaps, d.current, dropped);
    AllBlankPush(gaps, dropped);
    MustEndPush(col, spans, d.lines, gaps, d.current, dropped);
    NoSpans();
    assert taken + dropped + [] == taken + dropped;
    assert DrawsWith(col, spans, Flush(d, prefix, used), taken + dropped, gaps + [dropped]);
    DrawsIf(col, spans, Flush(d, prefix, used), taken + dropped, gaps + [dropped]);
  }

  lemma {:induction false} NoSpans()
    ensures SpanCells([]) == []
  {
  }

  lemma {:induction false} DrawsIf(col: Column, spans: seq<Span>, d: Draft, taken: seq<Cell>, gaps: seq<seq<Cell>>)
    requires DrawsWith(col, spans, d, taken, gaps)
    ensures Draws(col, spans, d, taken)
  {
  }

  lemma {:induction false} AllBlankPush(gaps: seq<seq<Cell>>, gap: seq<Cell>)
    requires AllBlank(gaps) && BlankCells(gap)
    ensures AllBlank(gaps + [gap])
  {
  }

  // ---------------------------------------------------------------------------
  // The fill mark
  // ---------------------------------------------------------------------------

  /** Below the column the fill mark is where the line ends, and it never runs ahead of it. In the middle of a
      cut word, `rest` being what is left of it, the line has no room for the next character. */
  predicate MarkIsHonest(col: Column, d: Draft, rest: string) {
    var w := LineWidth(col.cw, d.current);
    (d.used < col.width ==> w == d.used)
    && (w > col.width || if rest == "" then w >= d.used else w + col.cw(rest[0]) > col.width)
  }

  /** What is left of the word from q to e of the k-th span: its characters from p on. */
  datatype Place = Place(k: nat, q: nat, p: nat, e: nat)

  predicate IsPlace(spans: seq<Span>, at: Place) {
    at.k < |spans| && at.q <= at.p <= at.e <= |spans[at.k].content| && IsWordAt(spans[at.k].content, at.q, at.e)
  }

  function WordOf(spans: seq<Span>, at: Place): (w: string)
    requires IsPlace(spans, at)
    ensures |w| == at.e - at.q
  {
    spans[at.k].content[at.q..at.e]
  }

  function Remaining(spans: seq<Span>, at: Place): (w: string)
    requires IsPlace(spans, at)
    ensures |w| == at.e - at.p
  {
    spans[at.k].content[at.p..at.e]
  }

  lemma {:induction false} RestOfWord(spans: seq<Span>, at: Place)
    requires IsPlace(spans, at)
    ensures Remaining(spans, at) == WordOf(spans, at)[at.p - at.q..]
  {
    hide IsWordAt;
  }

  lemma {:induction false} WholeWord(spans: seq<Span>, at: Place)
    requires IsPlace(spans, at) && at.p == at.q
    ensures Remaining(spans, at) == WordOf(spans, at)
  {
    hide IsWordAt;
  }

  /** All text before what is left of the word. */
  function Before(spans: seq<Span>, at: Place): (cells: seq<Cell>)
    requires IsPlace(spans, at)
    ensures |cells| == |SpanCells(spans[..at.k])| + at.p
  {
    SpanCells(spans[..at.k]) + Cells(spans[at.k].content[..at.p], spans[at.k].style)
  }

  // Once the head of what is left of a word is taken, its tail is left.
  lemma {:induction false} BeforeMoves(spans: seq<Span>, at: Place, head: string, tail: string)
    requires IsPlace(spans, at) && Remaining(spans, at) == head + tail
    ensures at.p + |head| + |tail| == at.e
    ensures var after := at.(p := at.p + |head|);
            IsPlace(spans, after) && Remaining(spans, after) == tail && WordOf(spans, after) == WordOf(spans, at)
            && Before(spans, after) == Before(spans, at) + Cells(head, spans[at.k].style)
  {
    hide IsWordAt, SpanCells;
    var s, style := spans[at.k].content, spans[at.k].style;
    PartsOfSlice(s, at.p, at.e, head, tail);
    CellsAppend(SpanCells(spans[..at.k]), s[..at.p], head, style);
  }

  lemma {:induction false} PartsOfSlice(s: string, p: nat, e: nat, head: string, tail: string)
    requires p <= e <= |s| && s[p..e] == head + tail
    ensures p + |head| + |tail| == e
    ensures s[..p + |head|] == s[..p] + head && s[p + |head|..e] == tail
  {
    assert |s[p..e]| == e - p;
    assert forall i :: 0 <= i < |head| ==> s[p + i] == s[p..e][i] == head[i];
    assert forall i :: 0 <= i < |tail| ==> s[p + |head| + i] == s[p..e][|head| + i] == tail[i];
  }

  lemma {:induction false} BlankRest(spans: seq<Span>, at: Place)
    requires IsPlace(spans, at) && Blank(WordOf(spans, at))
    ensures BlankCells(Cells(Remaining(spans, at), spans[at.k].style))
  {
    hide IsWordAt;
    RestOfWord(spans, at);
  }

  /** Where the mark has no room for what is left of a word, the line must end. */
  lemma {:induction false} LineMustEnd(col: Column, spans: seq<Span>, d: Draft, at: Place, rest: string)
    requires IsPlace(spans, at) && at.p < at.e
    requires if at.p == at.q then rest == "" && d.used > col.Margin()
             else rest == Remaining(spans, at) && (col.Margin() < col.width ==> IsAtMargin(col, d.current, at.p - at.q))
    requires MarkIsHonest(col, d, rest) && d.used + Width(col.cw, Remaining(spans, at)) > col.width
    ensures var gap := if Blank(WordOf(spans, at)) then Cells(Remaining(spans, at), spans[at.k].style) else [];
            MustEnd(col, spans, d.current, |Before(spans, at)|, gap)
  {
    hide LineWidth, Width, IsWordAt, SpanCells, Blank, IsAtMargin, MustEnd, Before, WordOf, Remaining;
    assert |Remaining(spans, at)| > 0;
    CharFits(col.cw, Remaining(spans, at), 0);
    LineMustEndAt(col, spans, d.current, at);
  }

  lemma {:induction false} LineMustEndAt(col: Column, spans: seq<Span>, line: Line, at: Place)
    requires IsPlace(spans, at) && at.p < at.e
    requires LineWidth(col.cw, line) + Width(col.cw, Remaining(spans, at)) > col.width
    requires at.p > at.q ==> LineWidth(col.cw, line) + col.cw(Remaining(spans, at)[0]) > col.width
    requires col.Margin() < col.width ==>
               if at.p == at.q then LineWidth(col.cw, line) > col.Margin() else IsAtMargin(col, line, at.p - at.q)
    ensures var gap := if Blank(WordOf(spans, at)) then Cells(Remaining(spans, at), spans[at.k].style) else [];
            MustEnd(col, spans, line, |Before(spans, at)|, gap)
  {
    hide LineWidth, Width, IsWordAt, SpanCells, Blank, IsAtMargin, MustEnd, Before, Cells;
    var gap := if Blank(WordOf(spans, at)) then Cells(Remaining(spans, at), spans[at.k].style) else [];
    assert Remaining(spans, at)[0] == spans[at.k].content[at.p];
    MustEndIf(col, spans, line, |Before(spans, at)|, gap, at.k, at.q, at.e);
  }

  lemma {:induction false} MustEndIf(col: Column, spans: seq<Span>, line: Line, j: nat, gap: seq<Cell>, k: nat, q: nat, e: nat)
    requires HasNoRoomFor(col, spans, line, j, gap, k, q, e)
    ensures MustEnd(col, spans, line, j, gap)
  {
  }

  // A whole word, or the last of one, that finds room.
  lemma {:induction false} HonestPush(col: Column, d: Draft, word: string, style: Style, rest: string)
    requires MarkIsHonest(col, d, rest) && (rest == "" || rest == word)
    ensures MarkIsHonest(col, Push(d, word, style, d.used + Width(col.cw, word)), "")
  {
    hide LineWidth, Width, SpanCells;
    var after := Push(d, word, style, d.used + Width(col.cw, word));
    PushedWidth(col.cw, d.current, word, style);
    assert LineWidth(col.cw, after.current) == LineWidth(col.cw, d.current) + Width(col.cw, word);
    if word != "" {
      CharFits(col.cw, word, 0);
    }
  }

  // A cut takes all that fits, or one character too many.
  predicate IsCut(cw: WidthTable, head: string, tail: string, room: nat) {
    head != ""
    && if Width(cw, head) <= room then tail != "" && Width(cw, head) + cw(tail[0]) > room else |head| == 1
  }

  lemma {:induction false} HonestCut(col: Column, d: Draft, head: string, tail: string, style: Style, rest: string)
    requires MarkIsHonest(col, d, rest) && (rest == "" || rest == head + tail)
    requires IsCut(col.cw, head, tail, if col.width > d.used then col.width - d.used else 0)
    ensures MarkIsHonest(col, Push(d, head, style, col.width), tail)
  {
    hide LineWidth, Width, SpanCells;
    var after := Push(d, head, style, col.width);
    PushedWidth(col.cw, d.current, head, style);
    assert LineWidth(col.cw, after.current) == LineWidth(col.cw, d.current) + Width(col.cw, head);
    CharFits(col.cw, head, 0);
    assert (head + tail)[0] == head[0];
  }

  /** The loop invariant of wrapping: nothing taken is lost and no finished line ended early; and when both
      prefixes are equally wide, lines stay bounded if the margin leaves room, and one line holds everything
      if it does not. */
  ghost predicate Sound(col: Column, spans: seq<Span>, d: Draft, taken: seq<Cell>) {
    Draws(col, spans, d, taken)
    && PrefixedDraft(col, d)
    && (col.Even() ==> if col.Margin() < col.width then Bounded(col, d) else Unbroken(d, col.Margin(), taken))
  }

  lemma {:induction false} SoundFlush(col: Column, spans: seq<Span>, d: Draft, taken: seq<Cell>, dropped: seq<Cell>)
    requires Sound(col, spans, d, taken) && d.used > col.Margin()
    requires BlankCells(dropped) && MustEnd(col, spans, d.current, |taken|, dropped)
    ensures Sound(col, spans, Flush(d, col.rest, col.Margin()), taken + dropped)
    ensures MarkIsHonest(col, Flush(d, col.rest, col.Margin()), "")
  {
    hide MustEnd, Draws, Width, AllBlank;
    DrawsFlush(col, spans, d, taken, col.rest, col.Margin(), dropped);
  }

  predicate FitsRoom(col: Column, d: Draft, s: string) {
    Width(col.cw, s) <= if col.width > d.used then col.width - d.used else 0
  }

  // The mark after a piece of text: past it, or at the column once a word is cut.
  predicate Pushable(col: Column, d: Draft, s: string, style: Style, used: nat) {
    (FitsRoom(col, d, s) || (|s| == 1 && d.used <= col.Margin()))
    && (used == col.width || (used == d.used + Width(col.cw, s) && FitsRoom(col, d, s)))
  }

  lemma {:induction false} BoundedPush(col: Column, d: Draft, s: string, style: Style, used: nat)
    requires col.Margin() < col.width && Bounded(col, d) && Pushable(col, d, s, style, used)
    ensures Bounded(col, Push(d, s, style, used))
  {
    PushedWidth(col.cw, d.current, s, style);
    hide SpanCells, LineWidth;
    var cells := SpanCells(d.current.text);
    if !FitsRoom(col, d, s) {
      assert s[..0] == "" && (cells + Cells(s, style))[|cells|] == (s[0], style);
    } else if LineWidth(col.cw, d.current) > col.width {
      var cell :| cell in cells && LineWidth(col.cw, d.current) <= col.Margin() + col.cw(cell.0);
      assert cell in cells + Cells(s, style);
    }
  }

  // Text that fits the room left of the fill mark, or one character where nothing fits.
  lemma {:induction false} SoundPush(col: Column, spans: seq<Span>, d: Draft, taken: seq<Cell>, s: string, style: Style, used: nat)
    requires Sound(col, spans, d, taken) && Pushable(col, d, s, style, used)
    ensures Sound(col, spans, Push(d, s, style, used), taken + Cells(s, style))
  {
    hide Draws;
    DrawsPush(col, spans, d, taken, s, style, used);
    PushedWidth(col.cw, d.current, s, style);
    if col.Even() && col.Margin() < col.width {
      BoundedPush(col, d, s, style, used);
    }
    hide Bounded;
  }

  lemma {:induction false} CellsAppend(taken: seq<Cell>, s: string, t: string, style: Style)
    ensures taken + Cells(s, style) + Cells(t, style) == taken + Cells(s + t, style)
  {
  }

  /** Break the line before a word that does not fit; a blank word is left out there. */
  method BreakBefore(col: Column, d0: Draft, word: string, isSpace: bool,
                     ghost spans: seq<Span>, ghost at: Place, ghost rest: string)
    returns (d: Draft, dropped: bool, ghost after: string)
    requires IsPlace(spans, at) && word == Remaining(spans, at) && (isSpace <==> Blank(WordOf(spans, at)))
    requires Sound(col, spans, d0, Before(spans, at)) && MarkIsHonest(col, d0, rest)
    requires if at.p == at.q then rest == ""
             else rest == word && (word != "" && col.Margin() < col.width ==> IsAtMargin(col, d0.current, at.p - at.q))
    requires word == "" ==> d0.used <= col.width
    ensures d == d0 || d.current.text == []
    ensures Sound(col, spans, d, if dropped then Before(spans, at.(p := at.e)) else Before(spans, at))
    ensures d.used + Width(col.cw, word) > col.width ==> d.used <= col.Margin()
    ensures MarkIsHonest(col, d, after) && (after == "" || after == word) && (dropped ==> after == "")
  {
    hide Sound, MarkIsHonest, MustEnd, IsWordAt, IsAtMargin, Blank, WordOf, Remaining, Before, BlankCells;
    d, dropped, after := d0, false, rest;
    NoWidth(col.cw);
    if d.used + Width(col.cw, word) > col.width && d.used > col.Margin() {
      LineMustEnd(col, spans, d, at, rest);
      ghost var gap := if isSpace then Cells(word, spans[at.k].style) else [];
      if isSpace {
        BlankRest(spans, at);
      }
      NothingIsBlank();
      SoundFlush(col, spans, d, Before(spans, at), gap);
      assert word == word + "" && Before(spans, at) + [] == Before(spans, at);
      BeforeMoves(spans, at, word, "");
      d := Flush(d, col.rest, col.Margin());
      dropped, after := isSpace, "";
    }
  }

  /** The part of a too wide word that goes on this line: what fits the room, but never nothing. */
  method CutWord(cw: WidthTable, word: string, room: nat) returns (head: string, tail: string)
    requires Width(cw, word) > room
    ensures word == head + tail && head != ""
    ensures IsCut(cw, head, tail, room)
  {
    head, tail := SplitAtWidth(cw, word, room);
    if head == "" {
      head, tail := word[..1], word[1..];
      assert head[..0] == "" && head[0] == word[0];
      assert Width(cw, head) == cw(word[0]);
    } else {
      assert tail == "" ==> head == word;
    }
  }

  lemma {:induction false} CutIsAtMargin(col: Column, d: Draft, head: string, style: Style, rest: string, n: nat)
    requires MarkIsHonest(col, d, rest) && d.used <= col.Margin() < col.width && (n == 0 || d.current.text == [])
    ensures IsAtMargin(col, Push(d, head, style, col.width).current, n + |head|)
  {
    hide Width;
    PushedWidth(col.cw, d.current, head, style);
    CellsWidthOfSpans(col.cw, d.current.text);
    var cells := SpanCells(d.current.text);
    assert (cells + Cells(head, style))[..|cells|] == cells;
  }

  // Put a word on the line, or as much of it as goes there.
  method FillLine(col: Column, d0: Draft, word: string, style: Style,
                  ghost spans: seq<Span>, ghost taken: seq<Cell>, ghost rest: string, ghost n: nat)
    returns (d: Draft, head: string, tail: string, placed: bool)
    requires d0.used + Width(col.cw, word) > col.width ==> n == 0 || d0.current.text == [] || col.Margin() >= col.width
    requires d0.used + Width(col.cw, word) > col.width ==> d0.used <= col.Margin()
    requires Sound(col, spans, d0, taken) && MarkIsHonest(col, d0, rest) && (rest == "" || rest == word)
    ensures word == head + tail
    ensures if placed then tail == "" else |tail| < |word| && d.used == col.width
    ensures !placed && col.Margin() < col.width ==> IsAtMargin(col, d.current, n + |head|)
    ensures Sound(col, spans, d, taken + Cells(head, style)) && MarkIsHonest(col, d, tail)
  {
    hide Sound, MarkIsHonest;
    var room := if col.width > d0.used then col.width - d0.used else 0;
    var w := Width(col.cw, word);
    placed := w <= room;
    if placed {
      head, tail := word, "";
      HonestPush(col, d0, word, style, rest);
      SoundPush(col, spans, d0, taken, word, style, d0.used + w);
      d := Push(d0, word, style, d0.used + w);
    } else {
      head, tail := CutWord(col.cw, word, room);
      HonestCut(col, d0, head, tail, style, rest);
      if col.Margin() < col.width {
        CutIsAtMargin(col, d0, head, style, rest, n);
      }
      SoundPush(col, spans, d0, taken, head, style, col.width);
      d := Push(d0, head, style, col.width);
    }
  }

  /** Place one word: break the line before it when it does not fit, drop it there when it is blank,
      and cut it while it is wider than a whole line. This is the inner loop of `Wrap`. */
  method PlaceWord(col: Column, d0: Draft, whole: string, style: Style, ghost spans: seq<Span>, ghost at: Place)
    returns (d: Draft)
    requires IsPlace(spans, at) && at.p == at.q < at.e && whole == WordOf(spans, at) && style == spans[at.k].style
    requires Sound(col, spans, d0, Before(spans, at)) && MarkIsHonest(col, d0, "")
    ensures Sound(col, spans, d, Before(spans, at.(p := at.e))) && MarkIsHonest(col, d, "")
  {
    hide Sound, MarkIsHonest, IsWordAt, Width, Before, IsAtMargin, Blank, WordOf, Remaining;
    d := d0;
    var isSpace := Blank(whole);
    var word := whole;
    ghost var left, rest := at, "";
    WholeWord(spans, at);
    while true
      invariant IsPlace(spans, left) && left == at.(p := left.p) && word == Remaining(spans, left) && WordOf(spans, left) == whole
      invariant Sound(col, spans, d, Before(spans, left)) && MarkIsHonest(col, d, rest)
      invariant if left.p == left.q then rest == "" && word == whole
                else rest == word && d.used == col.width
                     && (col.Margin() < col.width ==> IsAtMargin(col, d.current, left.p - left.q))
      decreases |word|
    {
      var dropped;
      d, dropped, rest := BreakBefore(col, d, word, isSpace, spans, left, rest);
      if dropped {
        break;
      }
      var head, tail, placed;
      d, head, tail, placed := FillLine(col, d, word, style, spans, Before(spans, left), rest, left.p - left.q);
      BeforeMoves(spans, left, head, tail);
      left := left.(p := left.p + |head|);
      word, rest := tail, tail;
      if placed {
        break;
      }
    }
  }

  lemma {:induction false} NothingIsBlank()
    ensures BlankCells([])
  {
  }

  lemma {:induction false} NoWidth(cw: WidthTable)
    ensures Width(cw, "") == 0
  {
  }

  predicate BlankSpans(spans: seq<Span>) {
    forall i :: 0 <= i < |spans| ==> Blank(spans[i].content)
  }

  lemma {:induction false} BlankSpansDrawBlank(spans: seq<Span>)
    ensures BlankSpans(spans) <==> BlankCells(SpanCells(spans))
  {
    if spans != [] {
      var n := |spans| - 1;
      var front, last := SpanCells(spans[..n]), Cells(spans[n].content, spans[n].style);
      BlankSpansDrawBlank(spans[..n]);
      assert forall i :: 0 <= i < n ==> spans[..n][i] == spans[i];
      assert BlankSpans(spans) <==> BlankSpans(spans[..n]) && Blank(spans[n].content);
      assert BlankCells(last) <==> Blank(spans[n].content) by {
        assert forall i :: 0 <= i < |last| ==> last[i].0 == spans[n].content[i];
      }
      assert BlankCells(front + last) <==> BlankCells(front) && BlankCells(last) by {
        assert forall i :: 0 <= i < |front| ==> (front + last)[i] == front[i];
        assert forall i :: 0 <= i < |last| ==> (front + last)[|front| + i] == last[i];
      }
    }
  }

  predicate BlankLine(line: Line) {
    Blank(line.prefix.content) && BlankSpans(line.text)
  }

  /** The lines to draw: a last line that is blank all over goes if another is before it. */
  function Drawn(full: seq<Line>): (lines: seq<Line>)
    requires full != []
    ensures lines != [] && |lines| <= |full| && lines == full[..|lines|]
  {
    var n := |full| - 1;
    if n > 0 && BlankLine(full[n]) then full[..n] else full
  }

  /** All lines filled, the last included, draw exactly the text of the spans but for blanks left out after
      them, each but the last ends where it must, and with even prefixes they are bounded, or there is one. */
  ghost predicate IsLayout(col: Column, spans: seq<Span>, full: seq<Line>, gaps: seq<seq<Cell>>) {
    full != [] && Prefixed(full, col.first, col.rest)
    && |gaps| == |full| && AllBlank(gaps) && gaps[|gaps| - 1] == [] && Reassembled(full, gaps) == SpanCells(spans)
    && AllMustEnd(col, spans, full, gaps, |full| - 1)
    && (col.Even() ==>
          if col.Margin() < col.width then forall i :: 0 <= i < |full| ==> IsBounded(col, full[i])
          else |full| == 1)
  }

  lemma {:induction false} SoundFinish(col: Column, d: Draft, spans: seq<Span>)
    requires Sound(col, spans, d, SpanCells(spans))
    ensures Wrapped(col, Drawn(d.lines + [d.current]), spans)
  {
    hide AllBlank, Reassembled, AllMustEnd, SpanCells, LineWidth, Width;
    var gaps :| DrawsWith(col, spans, d, SpanCells(spans), gaps);
    ReassembledPush(d.lines, gaps, d.current, []);
    AllBlankPush(gaps, []);
    MustEndPush(col, spans, d.lines, gaps, d.current, []);
    assert IsLayout(col, spans, d.lines + [d.current], gaps + [[]]);
  }

  // One span's words, placed one after another.
  method WrapSpan(col: Column, d0: Draft, span: Span, ghost spans: seq<Span>, ghost k: nat)
    returns (d: Draft)
    requires k < |spans| && span == spans[k]
    requires Sound(col, spans, d0, SpanCells(spans[..k])) && MarkIsHonest(col, d0, "")
    ensures Sound(col, spans, d, SpanCells(spans[..k + 1])) && MarkIsHonest(col, d, "")
  {
    hide Sound, MarkIsHonest, WordSequence, SpanCells, IsWordAt, Concat;
    d := d0;
    var words := SplitWords(span.content);
    SpanTaken(spans, k, words);
    for j := 0 to |words|
      invariant Sound(col, spans, d, SpanCells(spans[..k]) + Cells(Concat(words[..j]), span.style)) && MarkIsHonest(col, d, "")
    {
      ghost var at := WordPlace(spans, k, words, j);
      d := PlaceWord(col, d, words[j], span.style, spans, at);
    }
    assert words[..|words|] == words;
  }

  // The text before the first and after the last word of a span.
  lemma {:induction false} SpanTaken(spans: seq<Span>, k: nat, words: seq<string>)
    requires k < |spans| && Concat(words) == spans[k].content
    ensures SpanCells(spans[..k]) + Cells(Concat(words[..0]), spans[k].style) == SpanCells(spans[..k])
    ensures SpanCells(spans[..k]) + Cells(Concat(words), spans[k].style) == SpanCells(spans[..k + 1])
  {
    assert spans[..k + 1][..k] == spans[..k];
  }

  // Where the j-th word of a span stands.
  ghost method WordPlace(spans: seq<Span>, k: nat, words: seq<string>, j: nat) returns (at: Place)
    requires k < |spans| && Concat(words) == spans[k].content && WordSequence(words) && j < |words|
    ensures IsPlace(spans, at) && at.p == at.q < at.e && at.k == k && WordOf(spans, at) == words[j]
    ensures Before(spans, at) == SpanCells(spans[..k]) + Cells(Concat(words[..j]), spans[k].style)
    ensures Before(spans, at.(p := at.e)) == SpanCells(spans[..k]) + Cells(Concat(words[..j + 1]), spans[k].style)
  {
    hide IsWordAt, WordSequence, SpanCells;
    var s, q := spans[k].content, |Concat(words[..j])|;
    WordIsAt(words, j);
    WordsAreWords(words, j);
    at := Place(k, q, q, q + |words[j]|);
    assert s[..at.e] == s[..q] + s[q..at.e];
  }

  function Start(col: Column): Draft {
    Draft([], Line(Span(col.first, RAW), []), Width(col.cw, col.first))
  }

  lemma {:induction false} SoundStart(col: Column, spans: seq<Span>)
    ensures Sound(col, spans, Start(col), []) && MarkIsHonest(col, Start(col), "")
  {
    assert DrawsWith(col, spans, Start(col), [], []);
  }

  /** What wrapping promises of its lines. */
  ghost predicate Wrapped(col: Column, lines: seq<Line>, spans: seq<Span>) {
    exists full: seq<Line>, gaps: seq<seq<Cell>> :: IsLayout(col, spans, full, gaps) && lines == Drawn(full)
  }

  /** Wrap styled spans to `width`, keeping each span's style across the break. */
  method Wrap(cw: WidthTable, spans: seq<Span>, width: nat, first: string, rest: string)
    returns (lines: seq<Line>)
    ensures Wrapped(Column(cw, width, first, rest), lines, spans)
  {
    hide Sound, Wrapped, MarkIsHonest;
    var col := Column(cw, width, first, rest);
    var d := Start(col);
    SoundStart(col, spans);
    for i := 0 to |spans|
      invariant Sound(col, spans, d, SpanCells(spans[..i])) && MarkIsHonest(col, d, "")
    {
      d := WrapSpan(col, d, spans[i], spans, i);
    }
    assert spans[..|spans|] == spans;
    lines := d.lines;
    if !Blank(d.current.prefix.content) || !BlankSpans(d.current.text) || lines == [] {
      lines := lines + [d.current];
    }
    SoundFinish(col, d, spans);
  }

  // ---------------------------------------------------------------------------
  // What wrapping promises
  // ---------------------------------------------------------------------------

  // The lines drawn are those laid out, or all but the last.
  lemma {:induction false} WrappedLayout(col: Column, lines: seq<Line>, spans: seq<Span>)
    returns (full: seq<Line>, gaps: seq<seq<Cell>>)
    requires Wrapped(col, lines, spans)
    ensures IsLayout(col, spans, full, gaps) && lines == Drawn(full)
    ensures lines != [] && Prefixed(lines, col.first, col.rest)
    ensures col.Even() && col.Margin() < col.width ==> forall i :: 0 <= i < |lines| ==> IsBounded(col, lines[i])
    ensures col.Even() && col.Margin() >= col.width ==> |lines| == 1 && SpanCells(lines[0].text) == SpanCells(spans)
  {
    full, gaps :| IsLayout(col, spans, full, gaps) && lines == Drawn(full);
    hide LineWidth, Width, SpanCells, AllMustEnd, BlankLine;
    if |full| == 1 {
      OneLine(full, gaps);
    }
  }

  lemma {:induction false} OneLine(full: seq<Line>, gaps: seq<seq<Cell>>)
    requires |full| == |gaps| == 1 && gaps[0] == []
    ensures Reassembled(full, gaps) == SpanCells(full[0].text)
  {
    hide SpanCells;
    NoReassembly(full[..0], gaps[..0]);
    assert Reassembled(full, gaps) == Reassembled(full[..0], gaps[..0]) + SpanCells(full[0].text) + gaps[0];
  }

  lemma {:induction false} NoReassembly(full: seq<Line>, gaps: seq<seq<Cell>>)
    requires full == [] && gaps == []
    ensures Reassembled(full, gaps) == []
  {
  }

  /** No visible character is lost, reordered or restyled, at any width and with any prefixes. */
  lemma {:induction false} WrappingKeepsInk(col: Column, lines: seq<Line>, spans: seq<Span>)
    requires Wrapped(col, lines, spans)
    ensures LinesInk(lines) == Ink(SpanCells(spans))
  {
    hide Wrapped, SpanCells, Ink, LinesInk, Reassembled, AllMustEnd, Prefixed, LineWidth, Width;
    var full, gaps := WrappedLayout(col, lines, spans);
    ReassembledInk(full, gaps);
    DrawnInk(full);
  }

  // A line that is blank all over holds nothing visible.
  lemma {:induction false} DrawnInk(full: seq<Line>)
    requires full != []
    ensures LinesInk(Drawn(full)) == LinesInk(full)
  {
    hide SpanCells, Ink, BlankSpans, Blank, BlankCells;
    var n := |full| - 1;
    BlankSpansDrawBlank(full[n].text);
    if BlankSpans(full[n].text) {
      BlankHasNoInk(SpanCells(full[n].text));
    }
  }

  predicate AllFit(cw: WidthTable, lines: seq<Line>, width: nat) {
    forall i :: 0 <= i < |lines| ==> LineWidth(cw, lines[i]) <= width
  }

  lemma {:induction false} CellFitsInSpans(cw: WidthTable, spans: seq<Span>, i: nat)
    requires i < |SpanCells(spans)|
    ensures cw(SpanCells(spans)[i].0) <= SpansWidth(cw, spans)
  {
    var n := |spans| - 1;
    var front := SpanCells(spans[..n]);
    if i < |front| {
      CellFitsInSpans(cw, spans[..n], i);
    } else {
      var s := spans[n].content;
      var k := i - |front|;
      assert SpanCells(spans)[i] == Cells(s, spans[n].style)[k];
      CharFits(cw, s, k);
    }
  }

  /** Every one of the characters fits beside the margin. */
  predicate GlyphsFit(col: Column, cells: seq<Cell>) {
    forall cell :: cell in cells ==> col.Margin() + col.cw(cell.0) <= col.width
  }

  // Position `c` of the text stands in the word from q to e of the k-th span.
  predicate StandsIn(spans: seq<Span>, c: nat, k: nat, q: nat, e: nat) {
    k < |spans| && IsWordAt(spans[k].content, q, e)
    && |SpanCells(spans[..k])| + q <= c < |SpanCells(spans[..k])| + e
  }

  /** Position `c` of the text does not stand in a blank word, and something visible stands there or behind it. */
  ghost predicate Shows(spans: seq<Span>, c: nat) {
    (exists v :: c <= v < |SpanCells(spans)| && !IsSpace(SpanCells(spans)[v].0))
    && forall k: nat, q: nat, e: nat :: StandsIn(spans, c, k, q, e) ==> !Blank(spans[k].content[q..e])
  }

  ghost predicate ShownFit(col: Column, spans: seq<Span>) {
    forall c :: 0 <= c < |SpanCells(spans)| && Shows(spans, c) ==> col.Margin() + col.cw(SpanCells(spans)[c].0) <= col.width
  }

  /** With even prefixes all lines fit the column exactly if every character drawn fits beside the margin. They do if
      every character of the text fits, and only if every one fits that is visible, or stands in a word that is not
      blank with something visible behind it: only blanks too wide for that room may still be left out. */
  lemma {:induction false} FitsExactly(col: Column, lines: seq<Line>, spans: seq<Span>)
    requires Wrapped(col, lines, spans) && col.Even()
    ensures AllFit(col.cw, lines, col.width) <==>
              col.Margin() <= col.width && forall i :: 0 <= i < |lines| ==> GlyphsFit(col, SpanCells(lines[i].text))
    ensures col.Margin() <= col.width && GlyphsFit(col, SpanCells(spans)) ==> AllFit(col.cw, lines, col.width)
    ensures AllFit(col.cw, lines, col.width) ==> ShownFit(col, spans)
  {
    hide Wrapped, GlyphsFit, AllFit, LineWidth, SpanCells, ShownFit;
    if AllFit(col.cw, lines, col.width) {
      DrawnFit(col, lines, spans);
      DrawnFitMeansShownFit(col, lines, spans);
    }
    if col.Margin() <= col.width && forall i :: 0 <= i < |lines| ==> GlyphsFit(col, SpanCells(lines[i].text)) {
      FittingGlyphsAreEnough(col, lines, spans);
    }
    if col.Margin() <= col.width && GlyphsFit(col, SpanCells(spans)) {
      FittingTextIsDrawnFitting(col, lines, spans);
    }
  }

  /** No blank of the text is too wide for the room beside the margin. */
  predicate BlanksFit(col: Column, cells: seq<Cell>) {
    forall cell :: cell in cells && IsSpace(cell.0) ==> col.Margin() + col.cw(cell.0) <= col.width
  }

  /** On the text alone: where no blank is too wide, or the margin takes the whole column, all lines fit exactly if
      every character does. */
  lemma {:induction false} TextFitsExactly(col: Column, lines: seq<Line>, spans: seq<Span>)
    requires Wrapped(col, lines, spans) && col.Even()
    requires col.Margin() >= col.width || BlanksFit(col, SpanCells(spans))
    ensures AllFit(col.cw, lines, col.width) <==> col.Margin() <= col.width && GlyphsFit(col, SpanCells(spans))
  {
    hide Wrapped, AllFit, LineWidth, SpanCells, Shows;
    FitsExactly(col, lines, spans);
    if col.Margin() >= col.width {
      FullMarginNeverBreaks(col, lines, spans);
    } else if AllFit(col.cw, lines, col.width) {
      DrawnFit(col, lines, spans);
      forall c | 0 <= c < |SpanCells(spans)|
        ensures col.Margin() + col.cw(SpanCells(spans)[c].0) <= col.width
      {
        if !IsSpace(SpanCells(spans)[c].0) {
          VisibleShows(spans, c);
        } else {
          assert SpanCells(spans)[c] in SpanCells(spans);
        }
      }
    }
  }

  // A line that fits has room for each of its characters beside its prefix.
  lemma {:induction false} DrawnFit(col: Column, lines: seq<Line>, spans: seq<Span>)
    requires Wrapped(col, lines, spans) && col.Even() && AllFit(col.cw, lines, col.width)
    ensures col.Margin() <= col.width && forall i :: 0 <= i < |lines| ==> GlyphsFit(col, SpanCells(lines[i].text))
  {
    hide SpanCells, IsLayout, Width, Wrapped;
    var full, gaps := WrappedLayout(col, lines, spans);
    assert LineWidth(col.cw, lines[0]) >= col.Margin();
    forall i, cell | 0 <= i < |lines| && cell in SpanCells(lines[i].text)
      ensures col.Margin() + col.cw(cell.0) <= col.width
    {
      var cells := SpanCells(lines[i].text);
      var n :| 0 <= n < |cells| && cells[n] == cell;
      CellFitsInSpans(col.cw, lines[i].text, n);
      assert LineWidth(col.cw, lines[i]) <= col.width;
    }
  }

  lemma {:induction false} FittingGlyphsAreEnough(col: Column, lines: seq<Line>, spans: seq<Span>)
    requires Wrapped(col, lines, spans) && col.Even() && col.Margin() <= col.width
    requires forall i :: 0 <= i < |lines| ==> GlyphsFit(col, SpanCells(lines[i].text))
    ensures AllFit(col.cw, lines, col.width)
  {
    hide Wrapped, LineWidth, SpanCells, IsLayout, Prefixed;
    var full, gaps := WrappedLayout(col, lines, spans);
    if col.Margin() == col.width {
      FullMarginNeverBreaks(col, lines, spans);
      WidthlessCells(col.cw, SpanCells(spans));
    }
  }

  lemma {:induction false} FittingTextIsDrawnFitting(col: Column, lines: seq<Line>, spans: seq<Span>)
    requires Wrapped(col, lines, spans) && GlyphsFit(col, SpanCells(spans))
    ensures forall i :: 0 <= i < |lines| ==> GlyphsFit(col, SpanCells(lines[i].text))
  {
    hide Wrapped, SpanCells, IsLayout, Prefixed;
    var full, gaps := WrappedLayout(col, lines, spans);
    forall i | 0 <= i < |lines|
      ensures GlyphsFit(col, SpanCells(lines[i].text))
    {
      LineIsOfText(col, spans, full, gaps, i);
    }
  }

  // A layout draws no character that is not in the text.
  lemma {:induction false} LineIsOfText(col: Column, spans: seq<Span>, full: seq<Line>, gaps: seq<seq<Cell>>, i: nat)
    requires IsLayout(col, spans, full, gaps) && i < |full|
    ensures forall cell :: cell in SpanCells(full[i].text) ==> cell in SpanCells(spans)
  {
    hide SpanCells, Reassembled, AllMustEnd, AllBlank, Prefixed, IsBounded, LineStart;
    LineInLayout(full, gaps, i);
    var text, cells, a := SpanCells(spans), SpanCells(full[i].text), LineStart(full, gaps, i);
    assert forall n :: 0 <= n < |cells| ==> cells[n] == text[a..a + |cells|][n] == text[a + n];
  }

  lemma {:induction false} DrawnFitMeansShownFit(col: Column, lines: seq<Line>, spans: seq<Span>)
    requires Wrapped(col, lines, spans)
    requires forall i :: 0 <= i < |lines| ==> GlyphsFit(col, SpanCells(lines[i].text))
    ensures ShownFit(col, spans)
  {
    hide Wrapped, SpanCells, Shows;
    forall c | 0 <= c < |SpanCells(spans)| && Shows(spans, c)
      ensures col.Margin() + col.cw(SpanCells(spans)[c].0) <= col.width
    {
      var i := ShownIsDrawn(col, lines, spans, c);
    }
  }

  /** What shows is on some line. */
  lemma {:induction false} ShownIsDrawn(col: Column, lines: seq<Line>, spans: seq<Span>, c: nat) returns (i: nat)
    requires Wrapped(col, lines, spans) && c < |SpanCells(spans)| && Shows(spans, c)
    ensures i < |lines| && SpanCells(spans)[c] in SpanCells(lines[i].text)
  {
    hide Wrapped, SpanCells, IsLayout, Shows, LineStart, BlankLine;
    var full, gaps := WrappedLayout(col, lines, spans);
    i := LineAround(col, spans, full, gaps, c);
    ShownIsInLine(col, spans, full, gaps, i, c);
    LastLineShows(col, spans, full, gaps, i, c);
  }

  // The line that starts last at or before a position of the text.
  lemma {:induction false} LineAround(col: Column, spans: seq<Span>, full: seq<Line>, gaps: seq<seq<Cell>>, c: nat) returns (i: nat)
    requires IsLayout(col, spans, full, gaps) && c < |SpanCells(spans)|
    ensures i < |full| && LineStart(full, gaps, i) <= c < LineStart(full, gaps, i + 1)
  {
    hide SpanCells, Reassembled, AllMustEnd, AllBlank, Prefixed, IsBounded, LineStart;
    i := 0;
    NoLinesYet(full, gaps);
    LineInLayout(full, gaps, |full| - 1);
    while LineStart(full, gaps, i + 1) <= c
      invariant i < |full| && LineStart(full, gaps, i) <= c
      decreases |full| - i
    {
      i := i + 1;
    }
  }

  // What is left out after a line is of a blank word.
  lemma {:induction false} GapDoesNotShow(col: Column, spans: seq<Span>, line: Line, j: nat, gap: seq<Cell>, c: nat)
    requires MustEnd(col, spans, line, j, gap)
    ensures j <= c < j + |gap| ==> !Shows(spans, c)
  {
    hide SpanCells, LineWidth, Width, IsWordAt, IsAtMargin, Blank;
    var k: nat, q: nat, e: nat :| HasNoRoomFor(col, spans, line, j, gap, k, q, e);
    if j <= c < j + |gap| {
      assert StandsIn(spans, c, k, q, e);
    }
  }

  lemma {:induction false} ShownIsInLine(col: Column, spans: seq<Span>, full: seq<Line>, gaps: seq<seq<Cell>>, i: nat, c: nat)
    requires IsLayout(col, spans, full, gaps) && i < |full| && c < |SpanCells(spans)| && Shows(spans, c)
    requires LineStart(full, gaps, i) <= c < LineStart(full, gaps, i + 1)
    ensures SpanCells(spans)[c] in SpanCells(full[i].text)
  {
    hide SpanCells, Reassembled, AllBlank, Prefixed, IsBounded, LineStart, MustEnd, AllMustEnd, Shows;
    LineInLayout(full, gaps, i);
    var text, cells, a := SpanCells(spans), SpanCells(full[i].text), LineStart(full, gaps, i);
    if i < |full| - 1 {
      MustEndAt(col, spans, full, gaps, |full| - 1, i);
      GapDoesNotShow(col, spans, full[i], a + |cells|, gaps[i], c);
    }
    assert text[c] == text[a..a + |cells|][c - a] == cells[c - a];
  }

  // A last line on which something shows is not blank.
  lemma {:induction false} LastLineShows(col: Column, spans: seq<Span>, full: seq<Line>, gaps: seq<seq<Cell>>, i: nat, c: nat)
    requires IsLayout(col, spans, full, gaps) && i < |full| && c < |SpanCells(spans)| && Shows(spans, c)
    requires LineStart(full, gaps, i) <= c
    ensures i == |full| - 1 ==> !BlankLine(full[i])
  {
    hide SpanCells, Reassembled, AllBlank, Prefixed, IsBounded, LineStart, AllMustEnd, BlankSpans, Blank;
    LineInLayout(full, gaps, i);
    BlankSpansDrawBlank(full[i].text);
    var text, cells, a := SpanCells(spans), SpanCells(full[i].text), LineStart(full, gaps, i);
    var v :| c <= v < |text| && !IsSpace(text[v].0);
    if i == |full| - 1 {
      assert text[v] == text[a..a + |cells|][v - a] == cells[v - a];
    }
  }

  // Something visible stands in no blank word.
  lemma {:induction false} VisibleShows(spans: seq<Span>, c: nat)
    requires c < |SpanCells(spans)| && !IsSpace(SpanCells(spans)[c].0)
    ensures Shows(spans, c)
  {
    hide SpanCells, IsWord;
    forall k: nat, q: nat, e: nat | StandsIn(spans, c, k, q, e)
      ensures !Blank(spans[k].content[q..e])
    {
      var s, base := spans[k].content, |SpanCells(spans[..k])|;
      SpanInText(spans, k, q, e);
      assert SpanCells(spans)[c] == SpanCells(spans)[base + q..base + e][c - base - q];
      assert s[q..e][c - base - q] == SpanCells(spans)[c].0;
    }
  }

  lemma {:induction false} OneSpan(cw: WidthTable, span: Span)
    ensures SpanCells([span]) == Cells(span.content, span.style) && SpansWidth(cw, [span]) == Width(cw, span.content)
  {
    assert [span][..0] == [];
    assert SpanCells([]) == [] && SpansWidth(cw, []) == 0;
  }

  lemma {:induction false} WidthOfTwo(cw: WidthTable, a: char, b: char)
    ensures Width(cw, [a]) == cw(a) && Width(cw, [a, b]) == cw(a) + cw(b)
  {
    assert [a][..0] == "" && [a, b][..1] == [a];
  }

  const WIDE_BLANK := '\U{3000}'

  // Two lines with nothing left out between or after them.
  lemma {:induction false} TwoLines(line: Line, last: Line)
    ensures LineStart([line, last], [[], []], 0) == 0
    ensures Reassembled([line, last], [[], []]) == SpanCells(line.text) + SpanCells(last.text)
  {
    hide SpanCells;
    var full, gaps := [line, last], [[], []];
    NoLinesYet(full, gaps);
    LineInLayout(full, gaps, 0);
    LineInLayout(full, gaps, 1);
    var text := Reassembled(full, gaps);
    assert text == text[0..|SpanCells(line.text)|] + text[|SpanCells(line.text)|..];
  }

  lemma {:induction false} WideBlankHasNoRoom(cw: WidthTable, col: Column, spans: seq<Span>, line: Line)
    requires cw('x') == 1 && cw(WIDE_BLANK) == 2 && Width(cw, "  ") == 2
    requires col == Column(cw, 3, "  ", "  ") && spans == [Span(['x', WIDE_BLANK], RAW)] && line == Line(Span("  ", RAW), [Span("x", RAW)])
    ensures LineWidth(cw, line) == 3 && MustEnd(col, spans, line, 1, [])
  {
    hide Width, SpansWidth, SpanCells, MustEnd;
    var s := spans[0].content;
    NoSpans();
    assert spans[..0] == [];
    WidthOfTwo(cw, 'x', WIDE_BLANK);
    WidthOfTwo(cw, WIDE_BLANK, 'x');
    OneSpan(cw, line.text[0]);
    assert s[0..2] == s && s[1..2] == [WIDE_BLANK] && !IsSpace(s[0]);
    assert IsWordAt(s, 0, 2);
    MustEndIf(col, spans, line, 1, [], 0, 0, 2);
  }

  lemma {:induction false} WideBlankLayout(cw: WidthTable, col: Column, spans: seq<Span>, line: Line)
    requires cw('x') == 1 && cw(WIDE_BLANK) == 2 && Width(cw, "  ") == 2
    requires col == Column(cw, 3, "  ", "  ") && spans == [Span(['x', WIDE_BLANK], RAW)] && line == Line(Span("  ", RAW), [Span("x", RAW)])
    ensures Wrapped(col, [line], spans)
  {
    hide Width, SpansWidth, SpanCells, Reassembled, MustEnd;
    var last := Line(Span("  ", RAW), [Span([WIDE_BLANK], RAW)]);
    var full, gaps := [line, last], [[], []];
    WidthOfTwo(cw, WIDE_BLANK, 'x');
    OneSpan(cw, spans[0]);
    OneSpan(cw, line.text[0]);
    OneSpan(cw, last.text[0]);
    WideBlankHasNoRoom(cw, col, spans, line);
    TwoLines(line, last);
    assert Cells("x", RAW) + Cells([WIDE_BLANK], RAW) == Cells(spans[0].content, RAW);
    assert AllMustEnd(col, spans, full, gaps, 1);
    assert Cells([WIDE_BLANK], RAW)[0] in SpanCells(last.text);
    assert IsBounded(col, line) && IsBounded(col, last);
    assert IsLayout(col, spans, full, gaps);
    assert Drawn(full) == [line];
  }

  /** A blank with too little room may be left out even at the end of a word with ink: alone on the last line it goes
      with that line. So not every character of such a word has to fit. */
  lemma {:induction false} WideBlankMayGo(cw: WidthTable)
    requires cw('x') == cw(' ') == 1 && cw(WIDE_BLANK) == 2
    ensures var col, spans, line := Column(cw, 3, "  ", "  "), [Span(['x', WIDE_BLANK], RAW)], Line(Span("  ", RAW), [Span("x", RAW)]);
            Wrapped(col, [line], spans) && AllFit(cw, [line], 3) && !GlyphsFit(col, SpanCells(spans))
  {
    hide IsLayout, Drawn, Width, SpansWidth, SpanCells, Wrapped;
    var col, spans, line := Column(cw, 3, "  ", "  "), [Span(['x', WIDE_BLANK], RAW)], Line(Span("  ", RAW), [Span("x", RAW)]);
    WidthOfTwo(cw, ' ', ' ');
    WidthOfTwo(cw, 'x', WIDE_BLANK);
    OneSpan(cw, spans[0]);
    OneSpan(cw, Span("x", RAW));
    WideBlankLayout(cw, col, spans, line);
    assert (WIDE_BLANK, RAW) == Cells(spans[0].content, RAW)[1];
  }

  lemma {:induction false} WidthlessCells(cw: WidthTable, cells: seq<Cell>)
    requires forall cell :: cell in cells ==> cw(cell.0) == 0
    ensures CellsWidth(cw, cells) == 0
  {
    if cells != [] {
      WidthlessCells(cw, cells[..|cells| - 1]);
    }
  }

  /** Two cells beside the margin are enough for every text of characters at most two cells wide. */
  lemma {:induction false} TwoCellsAreEnough(col: Column, lines: seq<Line>, spans: seq<Span>)
    requires Wrapped(col, lines, spans) && col.Even()
    requires col.Margin() + 2 <= col.width && forall cell :: cell in SpanCells(spans) ==> col.cw(cell.0) <= 2
    ensures AllFit(col.cw, lines, col.width)
  {
    hide SpanCells, Wrapped, AllFit, ShownFit;
    FitsExactly(col, lines, spans);
  }

  /** Two cells are also needed: with less, any text with a visible two-cell character overflows. */
  lemma {:induction false} TwoCellsAreNeeded(col: Column, lines: seq<Line>, spans: seq<Span>, wide: Cell)
    requires Wrapped(col, lines, spans) && col.Even()
    requires wide in SpanCells(spans) && !IsSpace(wide.0) && col.cw(wide.0) == 2 && col.Margin() + 2 > col.width
    ensures !AllFit(col.cw, lines, col.width)
  {
    hide SpanCells, Wrapped, AllFit, GlyphsFit, Shows;
    FitsExactly(col, lines, spans);
    var c :| 0 <= c < |SpanCells(spans)| && SpanCells(spans)[c] == wide;
    VisibleShows(spans, c);
  }

  lemma {:induction false} SpansBefore(spans: seq<Span>, i: nat)
    requires i <= |spans|
    ensures SpanCells(spans[..i]) <= SpanCells(spans)
    decreases |spans| - i
  {
    if i < |spans| {
      SpansBefore(spans, i + 1);
      assert spans[..i + 1][..i] == spans[..i];
    } else {
      assert spans[..i] == spans;
    }
  }

  lemma {:induction false} FirstLineLeads(lines: seq<Line>, gaps: seq<seq<Cell>>)
    requires |gaps| == |lines| > 0
    ensures SpanCells(lines[0].text) <= Reassembled(lines, gaps)
  {
    var n := |lines| - 1;
    if n > 0 {
      FirstLineLeads(lines[..n], gaps[..n]);
    }
    hide SpanCells;
  }

  lemma {:induction false} NoRoomMeansWider(col: Column, spans: seq<Span>, line: Line, gap: seq<Cell>, k: nat, q: nat, e: nat)
    requires SpanCells(line.text) <= SpanCells(spans)
    requires HasNoRoomFor(col, spans, line, |SpanCells(line.text)|, gap, k, q, e)
    ensures Width(col.cw, line.prefix.content) + CellsWidth(col.cw, SpanCells(spans)) > col.width
  {
    hide SpanCells, CellsWidth, IsWordAt, Width, Blank, IsAtMargin, LineWidth;
    var text, drawn, base := SpanCells(spans), SpanCells(line.text), |SpanCells(spans[..k])|;
    var s, p, style := spans[k].content, |drawn| - base, spans[k].style;
    NoRoomIsTooWide(col, spans, line, |drawn|, gap, k, q, e, e);
    SpanInText(spans, k, p, e);
    CellsWidthAppend(col.cw, text[..base + e], text[base + e..]);
    assert text[..base + e] == drawn + Cells(s[p..e], style) && text == text[..base + e] + text[base + e..];
  }

  /** Text that fits beside the first prefix stays on one line. */
  lemma {:induction false} FittingTextIsOneLine(col: Column, lines: seq<Line>, spans: seq<Span>)
    requires Wrapped(col, lines, spans)
    requires Width(col.cw, col.first) + CellsWidth(col.cw, SpanCells(spans)) <= col.width
    ensures |lines| == 1 && LinesInk(lines) == Ink(SpanCells(spans))
  {
    hide Wrapped, SpanCells, LineWidth, CellsWidth, Width, Prefixed, Ink, LinesInk;
    WrappingKeepsInk(col, lines, spans);
    var full, gaps := WrappedLayout(col, lines, spans);
    assert lines[0].prefix == full[0].prefix == Span(col.first, RAW) by {
      FirstPrefix(col, full);
    }
    if |full| > 1 {
      FirstLineIsShort(col, spans, full, gaps);
    }
  }

  lemma {:induction false} FirstPrefix(col: Column, full: seq<Line>)
    requires full != [] && Prefixed(full, col.first, col.rest)
    ensures full[0].prefix == Span(col.first, RAW)
  {
  }

  lemma {:induction false} FirstLineIsShort(col: Column, spans: seq<Span>, full: seq<Line>, gaps: seq<seq<Cell>>)
    requires IsLayout(col, spans, full, gaps) && |full| > 1
    ensures Width(col.cw, full[0].prefix.content) + CellsWidth(col.cw, SpanCells(spans)) > col.width
  {
    hide HasNoRoomFor, CellsWidth, Width, LineWidth, SpanCells, Reassembled, Prefixed;
    FirstLineLeads(full, gaps);
    NoLinesYet(full, gaps);
    MustEndAt(col, spans, full, gaps, |full| - 1, 0);
    var k: nat, q: nat, e: nat :| HasNoRoomFor(col, spans, full[0], |SpanCells(full[0].text)|, gaps[0], k, q, e);
    NoRoomMeansWider(col, spans, full[0], gaps[0], k, q, e);
  }

  /** A margin as wide as the column switches breaking off: one line holds the whole text, however wide. */
  lemma {:induction false} FullMarginNeverBreaks(col: Column, lines: seq<Line>, spans: seq<Span>)
    requires Wrapped(col, lines, spans) && col.Even() && col.Margin() >= col.width
    ensures |lines| == 1 && SpanCells(lines[0].text) == SpanCells(spans)
    ensures LineWidth(col.cw, lines[0]) == col.Margin() + CellsWidth(col.cw, SpanCells(spans))
  {
    var full, gaps := WrappedLayout(col, lines, spans);
    CellsWidthOfSpans(col.cw, lines[0].text);
  }

  // ---------------------------------------------------------------------------
  // The promises leave no choice
  // ---------------------------------------------------------------------------

  // Words do not overlap.
  lemma {:induction false} WordAtIsUnique(s: string, p: nat, q: nat, e: nat, q': nat, e': nat)
    requires IsWordAt(s, q, e) && IsWordAt(s, q', e') && q <= p < e && q' <= p < e'
    ensures q == q' && e == e'
  {
    assert forall i :: q <= i < e ==> s[i] == s[q..e][i - q];
    assert forall i :: q' <= i < e' ==> s[i] == s[q'..e'][i - q'];
  }

  lemma {:induction false} SpansDoNotOverlap(spans: seq<Span>, k: nat, k': nat)
    requires k < k' <= |spans|
    ensures |SpanCells(spans[..k])| + |spans[k].content| <= |SpanCells(spans[..k'])|
    decreases k'
  {
    var n := k' - 1;
    assert spans[..k'][..n] == spans[..n];
    if k < n {
      SpansDoNotOverlap(spans, k, n);
    }
  }

  // A position of the text lies in one word of one span.
  lemma {:induction false} PlaceIsUnique(spans: seq<Span>, j: nat, k: nat, q: nat, e: nat, k': nat, q': nat, e': nat)
    requires k < |spans| && IsWordAt(spans[k].content, q, e)
    requires |SpanCells(spans[..k])| + q <= j < |SpanCells(spans[..k])| + e
    requires k' < |spans| && IsWordAt(spans[k'].content, q', e')
    requires |SpanCells(spans[..k'])| + q' <= j < |SpanCells(spans[..k'])| + e'
    ensures k == k' && q == q' && e == e'
  {
    hide SpanCells;
    if k < k' {
      SpansDoNotOverlap(spans, k, k');
    } else if k' < k {
      SpansDoNotOverlap(spans, k', k);
    } else {
      WordAtIsUnique(spans[k].content, j - |SpanCells(spans[..k])|, q, e, q', e');
    }
  }

  // What a span holds from p to e stands in the text behind what comes before it.
  lemma {:induction false} SpanInText(spans: seq<Span>, k: nat, p: nat, e: nat)
    requires k < |spans| && p <= e <= |spans[k].content|
    ensures var base, text := |SpanCells(spans[..k])|, SpanCells(spans);
            base + e <= |text| && text[base + p..base + e] == Cells(spans[k].content[p..e], spans[k].style)
  {
    hide SpanCells;
    var front, own := SpanCells(spans[..k]), Cells(spans[k].content, spans[k].style);
    SpansBefore(spans, k + 1);
    NextSpan(spans, k);
    SliceOfPart(SpanCells(spans), front, own, p, e);
    assert own[p..e] == Cells(spans[k].content[p..e], spans[k].style);
  }

  lemma {:induction false} SliceOfPart<T>(text: seq<T>, front: seq<T>, own: seq<T>, p: nat, e: nat)
    requires front + own <= text && p <= e <= |own|
    ensures |front| + e <= |text| && text[|front| + p..|front| + e] == own[p..e]
  {
    var part := front + own;
    assert part[|front| + p..|front| + e] == own[p..e];
    assert text[..|part|] == part;
  }

  lemma {:induction false} NextSpan(spans: seq<Span>, k: nat)
    requires k < |spans|
    ensures SpanCells(spans[..k + 1]) == SpanCells(spans[..k]) + Cells(spans[k].content, spans[k].style)
  {
    assert spans[..k + 1][..k] == spans[..k];
  }

  /** A line that starts at `a` in the text of the spans and either ends it or ends where it must. */
  ghost predicate IsLineAt(col: Column, spans: seq<Span>, line: Line, a: nat, gap: seq<Cell>, last: bool) {
    var text, cells := SpanCells(spans), SpanCells(line.text);
    a + |cells| <= |text| && text[a..a + |cells|] == cells
    && Width(col.cw, line.prefix.content) == col.Margin() < col.width && LineWidth(col.cw, line) <= col.width
    && if last then a + |cells| == |text| && gap == [] else MustEnd(col, spans, line, a + |cells|, gap)
  }

  lemma {:induction false} LineIsWide(cw: WidthTable, line: Line, cells: seq<Cell>)
    requires cells <= SpanCells(line.text)
    ensures Width(cw, line.prefix.content) + CellsWidth(cw, cells) <= LineWidth(cw, line)
    ensures cells == SpanCells(line.text) ==> Width(cw, line.prefix.content) + CellsWidth(cw, cells) == LineWidth(cw, line)
  {
    var all := SpanCells(line.text);
    CellsWidthOfSpans(cw, line.text);
    CellsWidthAppend(cw, all[..|cells|], all[|cells|..]);
    assert all == all[..|cells|] + all[|cells|..] && all[..|cells|] == cells;
    hide SpanCells, CellsWidth, Width, SpansWidth;
  }

  // The line with what has no room on it would be too wide.
  lemma {:induction false} NoRoomIsTooWide(col: Column, spans: seq<Span>, x: Line, j: nat, gap: seq<Cell>, k: nat, q: nat, e: nat, end: nat)
    requires HasNoRoomFor(col, spans, x, j, gap, k, q, e)
    requires var p := j - |SpanCells(spans[..k])|; p < end <= e && (end == e || (end == p + 1 && p > q))
    ensures var p := j - |SpanCells(spans[..k])|;
            Width(col.cw, x.prefix.content)
            + CellsWidth(col.cw, SpanCells(x.text) + Cells(spans[k].content[p..end], spans[k].style)) > col.width
  {
    hide SpanCells, CellsWidth, IsWordAt, IsAtMargin, Width, Blank;
    var s, p, style := spans[k].content, j - |SpanCells(spans[..k])|, spans[k].style;
    CellsWidthOfSpans(col.cw, x.text);
    CellsWidthAppend(col.cw, SpanCells(x.text), Cells(s[p..end], style));
    CellsWidthOfString(col.cw, s[p..end], style);
    if end < e {
      OneChar(col.cw, s, p);
    }
  }

  // So a line that fits takes no more of the text than that.
  lemma {:induction false} TakesNoMore(col: Column, spans: seq<Span>, x: Line, y: Line, a: nat, gap: seq<Cell>,
                                       k: nat, q: nat, e: nat, end: nat)
    requires IsLineAt(col, spans, x, a, gap, false) && HasNoRoomFor(col, spans, x, a + |SpanCells(x.text)|, gap, k, q, e)
    requires var p := a + |SpanCells(x.text)| - |SpanCells(spans[..k])|;
             p < end <= e && (end == e || (end == p + 1 && p > q))
    requires a <= |SpanCells(spans)| && SpanCells(y.text) <= SpanCells(spans)[a..]
    requires y.prefix == x.prefix && LineWidth(col.cw, y) <= col.width
    ensures a + |SpanCells(y.text)| < |SpanCells(spans[..k])| + end
  {
    hide SpanCells, CellsWidth, LineWidth, IsWordAt, IsAtMargin, Width, MustEnd, Blank;
    var X, Y, base := SpanCells(x.text), SpanCells(y.text), |SpanCells(spans[..k])|;
    var p := a + |X| - base;
    var next := Cells(spans[k].content[p..end], spans[k].style);
    SpanInText(spans, k, p, end);
    NoRoomIsTooWide(col, spans, x, a + |X|, gap, k, q, e, end);
    if a + |Y| >= base + end {
      LongerHoldsMore(SpanCells(spans), a, X, next, Y);
      LineIsWide(col.cw, y, X + next);
    }
  }

  // What starts at the same place and is no shorter holds the pieces that stand there.
  lemma {:induction false} LongerHoldsMore<T>(text: seq<T>, a: nat, x: seq<T>, next: seq<T>, y: seq<T>)
    requires a + |x| + |next| <= |text| && text[a..a + |x|] == x && text[a + |x|..a + |x| + |next|] == next
    requires y <= text[a..] && |x| + |next| <= |y|
    ensures x + next <= y
  {
    var n := |x| + |next|;
    assert text[a..a + n] == x + next;
    assert y[..n] == text[a..][..n] == text[a..a + n];
  }

  lemma {:induction false} OneChar(cw: WidthTable, s: string, p: nat)
    requires p < |s|
    ensures Width(cw, s[p..p + 1]) == cw(s[p])
  {
    assert s[p..p + 1] == [s[p]] && [s[p]][..0] == "";
  }

  // Of two lines from the same place neither takes less than the other.
  lemma {:induction false} TakesNoLess(col: Column, spans: seq<Span>, x: Line, y: Line, a: nat, gx: seq<Cell>, gy: seq<Cell>, last: bool)
    requires IsLineAt(col, spans, x, a, gx, false) && IsLineAt(col, spans, y, a, gy, last) && x.prefix == y.prefix
    ensures |SpanCells(y.text)| <= |SpanCells(x.text)|
  {
    hide SpanCells, HasNoRoomFor, LineWidth, Width;
    var k: nat, q: nat, e: nat :| HasNoRoomFor(col, spans, x, a + |SpanCells(x.text)|, gx, k, q, e);
    TakesNoLessThan(col, spans, x, y, a, gx, gy, last, k, q, e);
  }

  lemma {:induction false} TakesNoLessThan(col: Column, spans: seq<Span>, x: Line, y: Line, a: nat, gx: seq<Cell>, gy: seq<Cell>,
                                           last: bool, k: nat, q: nat, e: nat)
    requires IsLineAt(col, spans, x, a, gx, false) && IsLineAt(col, spans, y, a, gy, last) && x.prefix == y.prefix
    requires HasNoRoomFor(col, spans, x, a + |SpanCells(x.text)|, gx, k, q, e)
    ensures |SpanCells(y.text)| <= |SpanCells(x.text)|
  {
    hide SpanCells, LineWidth, Width, IsWordAt, CellsWidth, IsAtMargin, MustEnd, Blank;
    var X, Y := SpanCells(x.text), SpanCells(y.text);
    var p := a + |X| - |SpanCells(spans[..k])|;
    PrefixFrom(SpanCells(spans), a, Y);
    TakesNoMore(col, spans, x, y, a, gx, k, q, e, if p > q then p + 1 else e);
    if p == q && |Y| > |X| {
      SpanInText(spans, k, p, e);
      CutsNoWord(col, spans, x, y, a, gx, gy, k, q, e);
    }
  }

  lemma {:induction false} PrefixFrom<T>(text: seq<T>, a: nat, y: seq<T>)
    requires a + |y| <= |text| && text[a..a + |y|] == y
    ensures y <= text[a..]
  {
  }

  // No line ends within a word that it could have left to the next line.
  lemma {:induction false} CutsNoWord(col: Column, spans: seq<Span>, x: Line, y: Line, a: nat, gx: seq<Cell>, gy: seq<Cell>,
                                      k: nat, q: nat, e: nat)
    requires IsLineAt(col, spans, x, a, gx, false) && IsLineAt(col, spans, y, a, gy, false) && x.prefix == y.prefix
    requires HasNoRoomFor(col, spans, x, a + |SpanCells(x.text)|, gx, k, q, e)
    requires a + |SpanCells(x.text)| == |SpanCells(spans[..k])| + q && |SpanCells(x.text)| < |SpanCells(y.text)|
    ensures a + |SpanCells(y.text)| >= |SpanCells(spans[..k])| + e
  {
    hide SpanCells, LineWidth, Width, IsWordAt, CellsWidth, Blank;
    var X, Y, base := SpanCells(x.text), SpanCells(y.text), |SpanCells(spans[..k])|;
    var j := a + |Y|;
    var k': nat, q': nat, e': nat :| HasNoRoomFor(col, spans, y, j, gy, k', q', e');
    PrefixOf(SpanCells(spans), a, X, Y);
    LineIsWide(col.cw, x, X);
    if |X| == 0 {
      NoCellsNoWidth(col.cw, X);
    }
    if j < base + e {
      PlaceIsUnique(spans, j, k, q, e, k', q', e');
    }
  }

  lemma {:induction false} PrefixOf<T>(text: seq<T>, a: nat, x: seq<T>, y: seq<T>)
    requires a + |x| <= a + |y| <= |text| && text[a..a + |x|] == x && text[a..a + |y|] == y
    ensures y[..|x|] == x
  {
  }

  lemma {:induction false} NoCellsNoWidth(cw: WidthTable, cells: seq<Cell>)
    requires cells == []
    ensures CellsWidth(cw, cells) == 0
  {
  }

  lemma {:induction false} SameEnd(col: Column, spans: seq<Span>, x: Line, y: Line, a: nat, gx: seq<Cell>, gy: seq<Cell>,
                                   lastX: bool, lastY: bool)
    requires IsLineAt(col, spans, x, a, gx, lastX) && IsLineAt(col, spans, y, a, gy, lastY) && x.prefix == y.prefix
    ensures SpanCells(x.text) == SpanCells(y.text) && gx == gy && lastX == lastY
  {
    hide SpanCells, LineWidth, Width, MustEnd;
    if !lastX {
      TakesNoLess(col, spans, x, y, a, gx, gy, lastY);
      EndsBeforeText(col, spans, x, a + |SpanCells(x.text)|, gx);
    }
    if !lastY {
      TakesNoLess(col, spans, y, x, a, gy, gx, lastX);
      EndsBeforeText(col, spans, y, a + |SpanCells(y.text)|, gy);
    }
    if !lastX && !lastY {
      SameGap(col, spans, x, y, a + |SpanCells(x.text)|, gx, gy);
    }
  }

  lemma {:induction false} EndsBeforeText(col: Column, spans: seq<Span>, line: Line, j: nat, gap: seq<Cell>)
    requires MustEnd(col, spans, line, j, gap)
    ensures j < |SpanCells(spans)|
  {
    hide SpanCells, LineWidth, Width, IsWordAt, IsAtMargin, Blank;
    var k: nat, q: nat, e: nat :| HasNoRoomFor(col, spans, line, j, gap, k, q, e);
    SpanInText(spans, k, 0, e);
  }

  lemma {:induction false} SameGap(col: Column, spans: seq<Span>, x: Line, y: Line, j: nat, gx: seq<Cell>, gy: seq<Cell>)
    requires MustEnd(col, spans, x, j, gx) && MustEnd(col, spans, y, j, gy)
    ensures gx == gy
  {
    hide SpanCells, LineWidth, Width, IsWordAt, IsAtMargin, Blank;
    var k: nat, q: nat, e: nat :| HasNoRoomFor(col, spans, x, j, gx, k, q, e);
    var k': nat, q': nat, e': nat :| HasNoRoomFor(col, spans, y, j, gy, k', q', e');
    PlaceIsUnique(spans, j, k, q, e, k', q', e');
  }

  // Where line i of a layout starts.
  function LineStart(full: seq<Line>, gaps: seq<seq<Cell>>, i: nat): nat
    requires |gaps| == |full| && i <= |full|
  {
    |Reassembled(full[..i], gaps[..i])|
  }

  lemma {:induction false} NoLinesYet(full: seq<Line>, gaps: seq<seq<Cell>>)
    requires |gaps| == |full|
    ensures LineStart(full, gaps, 0) == 0
  {
    assert full[..0] == [] && gaps[..0] == [];
  }

  lemma {:induction false} LineInLayout(full: seq<Line>, gaps: seq<seq<Cell>>, i: nat)
    requires |gaps| == |full| && i < |full|
    ensures var text, cells, a := Reassembled(full, gaps), SpanCells(full[i].text), LineStart(full, gaps, i);
            LineStart(full, gaps, i + 1) == a + |cells| + |gaps[i]| <= |text| && text[a..a + |cells|] == cells
    ensures i == |full| - 1 ==> LineStart(full, gaps, i + 1) == |Reassembled(full, gaps)|
    decreases |full|
  {
    hide SpanCells;
    var n := |full| - 1;
    assert full[..i + 1][..i] == full[..i] && gaps[..i + 1][..i] == gaps[..i];
    assert full[..n + 1] == full && gaps[..n + 1] == gaps;
    if i < n {
      LineInLayout(full[..n], gaps[..n], i);
      assert full[..n][..i] == full[..i] && gaps[..n][..i] == gaps[..i];
      assert full[..n][..i + 1] == full[..i + 1] && gaps[..n][..i + 1] == gaps[..i + 1];
    }
  }

  lemma {:induction false} LineOfLayout(col: Column, spans: seq<Span>, full: seq<Line>, gaps: seq<seq<Cell>>, i: nat)
    requires IsLayout(col, spans, full, gaps) && i < |full| && col.Even() && col.Margin() < col.width
    requires GlyphsFit(col, SpanCells(spans))
    ensures IsLineAt(col, spans, full[i], LineStart(full, gaps, i), gaps[i], i == |full| - 1)
    ensures full[i].prefix == Span(if i == 0 then col.first else col.rest, RAW)
  {
    hide SpanCells, MustEnd, LineWidth, Width, AllBlank, Reassembled;
    LineInLayout(full, gaps, i);
    LineIsOfText(col, spans, full, gaps, i);
    if i < |full| - 1 {
      MustEndAt(col, spans, full, gaps, |full| - 1, i);
    }
  }

  lemma {:induction false} MustEndAt(col: Column, spans: seq<Span>, lines: seq<Line>, gaps: seq<seq<Cell>>, n: nat, i: nat)
    requires |gaps| == |lines| && i < n <= |lines| && AllMustEnd(col, spans, lines, gaps, n)
    ensures MustEnd(col, spans, lines[i], LineStart(lines, gaps, i) + |SpanCells(lines[i].text)|, gaps[i])
  {
    hide MustEnd, SpanCells, Reassembled;
  }

  lemma {:induction false} SameLines(col: Column, spans: seq<Span>, full: seq<Line>, gaps: seq<seq<Cell>>,
                                     full': seq<Line>, gaps': seq<seq<Cell>>, i: nat)
    requires IsLayout(col, spans, full, gaps) && IsLayout(col, spans, full', gaps')
    requires col.Even() && col.Margin() < col.width && GlyphsFit(col, SpanCells(spans))
    requires i <= |full| && i <= |full'|
    ensures LineStart(full, gaps, i) == LineStart(full', gaps', i)
    ensures forall h :: 0 <= h < i ==> full[h].prefix == full'[h].prefix && SpanCells(full[h].text) == SpanCells(full'[h].text)
    ensures i > 0 ==> (i == |full| <==> i == |full'|)
  {
    hide IsLineAt, SpanCells, Prefixed, AllBlank, AllMustEnd, LineWidth, Reassembled;
    if i == 0 {
      NoLinesYet(full, gaps);
      NoLinesYet(full', gaps');
    } else {
      var h := i - 1;
      SameLines(col, spans, full, gaps, full', gaps', h);
      LineOfLayout(col, spans, full, gaps, h);
      LineOfLayout(col, spans, full', gaps', h);
      SameEnd(col, spans, full[h], full'[h], LineStart(full, gaps, h), gaps[h], gaps'[h], h == |full| - 1, h == |full'| - 1);
      LineInLayout(full, gaps, h);
      LineInLayout(full', gaps', h);
    }
  }

  /** Where every character fits beside even prefixes, the promises leave no choice: any two results have the same
      lines, down to the cells they draw. */
  lemma {:induction false} WrappingIsDetermined(col: Column, lines: seq<Line>, other: seq<Line>, spans: seq<Span>)
    requires Wrapped(col, lines, spans)
    requires Wrapped(col, other, spans)
    requires col.Even() && col.Margin() <= col.width && GlyphsFit(col, SpanCells(spans))
    ensures SameCells(lines, other)
  {
    hide IsLayout, SpanCells, Wrapped, LineStart, LineWidth;
    var full, gaps := WrappedLayout(col, lines, spans);
    var full', gaps' := WrappedLayout(col, other, spans);
    if col.Margin() < col.width {
      SameLayouts(col, spans, full, gaps, full', gaps');
      SameDrawn(full, full');
    }
  }

  lemma {:induction false} SameLayouts(col: Column, spans: seq<Span>, full: seq<Line>, gaps: seq<seq<Cell>>,
                                       full': seq<Line>, gaps': seq<seq<Cell>>)
    requires IsLayout(col, spans, full, gaps) && IsLayout(col, spans, full', gaps')
    requires col.Even() && col.Margin() < col.width && GlyphsFit(col, SpanCells(spans))
    ensures SameCells(full, full')
  {
    var n := if |full| < |full'| then |full| else |full'|;
    SameLines(col, spans, full, gaps, full', gaps', n);
    hide SpanCells, Prefixed, AllBlank, AllMustEnd, LineWidth, Reassembled;
  }

  predicate SameCells(lines: seq<Line>, other: seq<Line>) {
    |lines| == |other|
    && forall i :: 0 <= i < |lines| ==> lines[i].prefix == other[i].prefix && SpanCells(lines[i].text) == SpanCells(other[i].text)
  }

  lemma {:induction false} SameDrawn(full: seq<Line>, other: seq<Line>)
    requires full != [] && SameCells(full, other)
    ensures SameCells(Drawn(full), Drawn(other))
  {
    var n := |full| - 1;
    BlankSpansDrawBlank(full[n].text);
    BlankSpansDrawBlank(other[n].text);
    hide SpanCells, BlankSpans, Blank;
  }

  // ---------------------------------------------------------------------------
  // Blocks: the callers that choose the prefixes
  // ---------------------------------------------------------------------------

  datatype Shape = Heading(level: nat) | Quote | Item(marker: string) | Paragraph

  function Spaces(n: nat): (s: string)
    ensures |s| == n && forall i :: 0 <= i < n ==> s[i] == ' '
  {
    seq(n, i requires 0 <= i < n => ' ')
  }

  function Min(a: nat, b: nat): nat {
    if a < b then a else b
  }

  /** The column a block of the given shape and indentation is wrapped to. */
  function BlockColumn(cw: WidthTable, shape: Shape, indent: nat, width: nat): Column {
    var pad := Spaces(Min(indent, if width == 0 then 0 else width - 1));
    match shape
    case Heading(level) => var p := pad + (if level == 1 then "" else "  "); Column(cw, width, p, p)
    case Quote => Column(cw, width, pad + "\U{2502} ", pad + "\U{2502} ")
    case Item(marker) => Column(cw, width, pad + marker, pad + Spaces(Width(cw, marker)))
    case Paragraph => Column(cw, width, pad, pad)
  }

  lemma {:induction false} SpacesWidth(cw: WidthTable, n: nat)
    requires cw(' ') == 1
    ensures Width(cw, Spaces(n)) == n
  {
    if n > 0 {
      SpacesWidth(cw, n - 1);
      assert Spaces(n)[..n - 1] == Spaces(n - 1);
    }
  }

  /** Every block's continuation lines are indented exactly past its marker. */
  lemma {:induction false} BlockPrefixesAreEven(cw: WidthTable, shape: Shape, indent: nat, width: nat)
    requires cw(' ') == 1
    ensures BlockColumn(cw, shape, indent, width).Even()
  {
    if shape.Item? {
      var pad := Spaces(Min(indent, if width == 0 then 0 else width - 1));
      WidthAppend(cw, pad, shape.marker);
      WidthAppend(cw, pad, Spaces(Width(cw, shape.marker)));
      SpacesWidth(cw, Width(cw, shape.marker));
    }
  }

  const BAR := '\U{2502}'

  /** Cells a block's own prefix takes after its indentation. */
  function MarkerWidth(cw: WidthTable, shape: Shape): nat {
    match shape
    case Heading(level) => if level == 1 then 0 else 2
    case Quote => 2
    case Item(marker) => Width(cw, marker)
    case Paragraph => 0
  }

  lemma {:induction false} BlockMargin(cw: WidthTable, shape: Shape, indent: nat, width: nat)
    requires cw(' ') == 1 && cw(BAR) == 1
    ensures BlockColumn(cw, shape, indent, width).Margin()
         == Min(indent, if width == 0 then 0 else width - 1) + MarkerWidth(cw, shape)
  {
    var n := Min(indent, if width == 0 then 0 else width - 1);
    SpacesWidth(cw, n);
    match shape
    case Heading(level) =>
      WidthAppend(cw, Spaces(n), if level == 1 then "" else "  ");
      assert "  "[..1] == " " && " "[..0] == "";
    case Quote =>
      WidthAppend(cw, Spaces(n), "\U{2502} ");
      assert "\U{2502} "[..1] == [BAR] && [BAR][..0] == "";
    case Item(marker) =>
      WidthAppend(cw, Spaces(n), Spaces(Width(cw, marker)));
      SpacesWidth(cw, Width(cw, marker));
    case Paragraph =>
  }

  /** A block fits its column exactly if every character drawn fits beside its indentation, capped below the width,
      and its marker; it does if all text fits there, and only if all that shows does. */
  lemma {:induction false} BlockFitsExactly(cw: WidthTable, shape: Shape, indent: nat, width: nat, lines: seq<Line>, spans: seq<Span>)
    requires cw(' ') == 1 && cw(BAR) == 1
    requires Wrapped(BlockColumn(cw, shape, indent, width), lines, spans)
    ensures var col := BlockColumn(cw, shape, indent, width);
            col.Margin() == Min(indent, if width == 0 then 0 else width - 1) + MarkerWidth(cw, shape)
            && (AllFit(cw, lines, width) <==>
                  col.Margin() <= width && forall i :: 0 <= i < |lines| ==> GlyphsFit(col, SpanCells(lines[i].text)))
            && (col.Margin() <= width && GlyphsFit(col, SpanCells(spans)) ==> AllFit(cw, lines, width))
            && (AllFit(cw, lines, width) ==> ShownFit(col, spans))
  {
    BlockPrefixesAreEven(cw, shape, indent, width);
    BlockMargin(cw, shape, indent, width);
    FitsExactly(BlockColumn(cw, shape, indent, width), lines, spans);
    hide Wrapped, AllFit, SpanCells;
  }

  /** A prefix is a number of blanks and what comes after them. */
  predicate IsPadded(prefix: string, n: nat, shown: string) {
    |prefix| == n + |shown| && (forall i :: 0 <= i < n ==> prefix[i] == ' ') && prefix[n..] == shown
  }

  lemma {:induction false} SpacesPad(n: nat, shown: string)
    ensures IsPadded(Spaces(n) + shown, n, shown)
  {
  }

  /** What a block's lines show before their text: every line is indented, short of the last cell of the column; then an
      item shows its marker on its first line and as many blanks as that is wide on the others, a quote its bar on every
      line, a heading below the first level two blanks, and anything else nothing. */
  predicate IsBlockLine(cw: WidthTable, prefix: string, shape: Shape, indent: nat, width: nat, first: bool) {
    var n := if indent < width then indent else if width == 0 then 0 else width - 1;
    match shape
    case Heading(level) => IsPadded(prefix, n, if level == 1 then "" else "  ")
    case Quote => IsPadded(prefix, n, "\U{2502} ")
    case Item(marker) => if first then IsPadded(prefix, n, marker) else IsPadded(prefix, n + Width(cw, marker), "")
    case Paragraph => IsPadded(prefix, n, "")
  }

  lemma {:induction false} BlockPrefixes(cw: WidthTable, shape: Shape, indent: nat, width: nat)
    ensures var col := BlockColumn(cw, shape, indent, width);
            IsBlockLine(cw, col.first, shape, indent, width, true) && IsBlockLine(cw, col.rest, shape, indent, width, false)
  {
    hide Width, IsPadded, Spaces;
    var n := Min(indent, if width == 0 then 0 else width - 1);
    SpacesPad(n, "");
    assert Spaces(n) + "" == Spaces(n);
    match shape
    case Heading(level) => SpacesPad(n, if level == 1 then "" else "  ");
    case Quote => SpacesPad(n, "\U{2502} ");
    case Item(marker) =>
      SpacesPad(n, marker);
      SpacesPad(n + Width(cw, marker), "");
      MoreSpaces(n, Width(cw, marker));
      assert Spaces(n + Width(cw, marker)) + "" == Spaces(n + Width(cw, marker));
    case Paragraph =>
  }

  lemma {:induction false} MoreSpaces(a: nat, b: nat)
    ensures Spaces(a) + Spaces(b) == Spaces(a + b)
  {
  }

  /** One block of text, wrapped past its marker. */
  method Block(cw: WidthTable, spans: seq<Span>, shape: Shape, indent: nat, width: nat) returns (lines: seq<Line>)
    requires cw(' ') == 1
    ensures var col := BlockColumn(cw, shape, indent, width);
            Wrapped(col, lines, spans) && col.Even() && col.cw == cw && col.width == width
    ensures lines != [] && forall i :: 0 <= i < |lines| ==> IsBlockLine(cw, lines[i].prefix.content, shape, indent, width, i == 0)
  {
    hide Wrapped, Width, IsBlockLine, IsLayout, Drawn, BlockColumn;
    var col := BlockColumn(cw, shape, indent, width);
    BlockPrefixesAreEven(cw, shape, indent, width);
    BlockPrefixes(cw, shape, indent, width);
    BlockWidth(cw, shape, indent, width);
    lines := Wrap(cw, spans, width, col.first, col.rest);
    ghost var full, gaps := WrappedLayout(col, lines, spans);
  }

  lemma {:induction false} BlockWidth(cw: WidthTable, shape: Shape, indent: nat, width: nat)
    ensures BlockColumn(cw, shape, indent, width).cw == cw && BlockColumn(cw, shape, indent, width).width == width
  {
  }
}
