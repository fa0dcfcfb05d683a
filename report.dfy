/**
 * The text report of a comparison. A report is first laid out as a sequence
 * of lines, one per drawing step of the table, and each line is then
 * rendered to text. Properties of the layout (which rows are printed, where
 * skip and separator lines go, the order of the detail blocks) are stated on
 * the line sequence; properties of the text (equal widths) on the rendering.
 */
module Report {
  import opened Wrappers
  import opened Format
  import opened Columns
  import opened Statistics

  /** The width of the detail section below the table. */
  const DetailWidth: nat := 49

  /**
   * What the report of a table is drawn from: the layout parameters, the
   * column names, the columns shown (the unconverted copy when there is one)
   * and the info columns, and the number of rows.
   */
  datatype View = View(
    tableName: string,
    cellWidth: nat,
    packetSize: nat,
    tableHeight: nat,
    names: seq<string>,
    infoNames: seq<string>,
    shown: seq<Column>,
    info: seq<Column>,
    size: nat)

  /** Every shown and info column has one cell per row, and there is a row. */
  predicate WellFormed(v: View) {
    v.size >= 1 && Rectangular(v.shown, v.size) && Rectangular(v.info, v.size)
  }

  /**
   * The width of the Id column: floor(log10(size)) + 1, the number of
   * decimal digits of the row count, but at least 4.
   */
  function IndexWidth(size: nat): (w: nat)
    requires size >= 1
    ensures w >= 4 && w >= |NatText(size)|
  {
    NatTextLength(size);
    Max(DigitCount(size), 4)
  }

  /** Every row number below the row count fits the Id column. */
  lemma IndexFits(size: nat, i: nat)
    requires i < size
    ensures |NatText(i)| <= IndexWidth(size)
  {
    var d := DigitCount(size);
    NatTextShort(i, d);
  }

  /** The width between the outer bars of a full table line. */
  function LineSize(v: View): nat
    requires v.size >= 1
  {
    v.cellWidth * |v.names| + IndexWidth(v.size) + |v.names|
  }

  /** `k` copies of `s`, one after the other. */
  function Times(s: string, k: nat): string {
    if k == 0 then "" else Times(s, k - 1) + s
  }

  lemma {:induction false} TimesLength(s: string, k: nat)
    ensures |Times(s, k)| == k * |s|
  {
    if k > 0 {
      TimesLength(s, k - 1);
      MulStep(k, |s|);
    }
  }

  /** `|` and `s` centred in a field of width `w`. */
  function Cell(s: string, w: nat): string {
    "|" + Centered(s, w, ' ')
  }

  /** `|` and a field of width `w` filled with dashes. */
  function DashCell(w: nat): string {
    "|" + Centered("", w, '-')
  }

  /** A closed line of dashes between two bars. */
  function RuleText(w: nat): string {
    DashCell(w) + "|\n"
  }

  /** A closed line with `s` centred between two bars. */
  function BannerText(s: string, w: nat): string {
    Cell(s, w) + "|\n"
  }

  /** A closed line with `s` left aligned between two bars. */
  function LeftText(s: string, w: nat): string {
    "|" + LeftAligned(s, w) + "|\n"
  }

  /** The row separator: a dashed cell for the Id column and one per data column. */
  function SeparatorText(v: View): string
    requires v.size >= 1
  {
    DashCell(IndexWidth(v.size)) + Times(DashCell(v.cellWidth), |v.names|) + "|\n"
  }

  /** The skip line marking rows left out: `..` under Id and `...` under each data column. */
  function SkipText(v: View): string
    requires v.size >= 1
  {
    Cell("..", IndexWidth(v.size)) + Times(Cell("...", v.cellWidth), |v.names|) + "|\n"
  }

  /** Every text fits a cell of width `w`. */
  predicate Fits(texts: seq<string>, w: nat) {
    forall k :: 0 <= k < |texts| ==> |texts[k]| <= w
  }

  lemma MulStep(n: nat, w: nat)
    requires n >= 1
    ensures (n - 1) * w + w == n * w
  {
  }

  /** One centred cell per text, in order. */
  function Cells(texts: seq<string>, w: nat): string {
    if texts == [] then "" else Cells(texts[..|texts| - 1], w) + Cell(texts[|texts| - 1], w)
  }

  /** Texts that fit take one bar and `w` characters each. */
  lemma {:induction false} CellsLength(texts: seq<string>, w: nat)
    requires Fits(texts, w)
    ensures |Cells(texts, w)| == |texts| * (w + 1)
  {
    if texts != [] {
      var n := |texts|;
      CellsLength(texts[..n - 1], w);
      MulStep(n, w + 1);
    }
  }

  /** The cells of one more text: the cell of that text is appended. */
  lemma CellsStep(texts: seq<string>, k: nat, w: nat)
    requires k < |texts|
    ensures Cells(texts[..k + 1], w) == Cells(texts[..k], w) + Cell(texts[k], w)
  {
    assert texts[..k + 1][..k] == texts[..k];
  }

  /**
   * The header: `Id`, the data column names and the info column names, each
   * centred. The closing bar is written only when there are no info columns.
   */
  function HeaderText(v: View): string
    requires v.size >= 1
  {
    Cell("Id", IndexWidth(v.size)) + Cells(v.names, v.cellWidth) + Cells(v.infoNames, v.cellWidth)
      + (if v.infoNames == [] then "|" else "") + "\n"
  }

  /** `{:.4f}` of a floating cell, with the C library's texts for infinities and NaN. */
  function FloatText(f: Float): string {
    match f
    case Finite(x) => FixedText(x, 4)
    case Infinite(negative) => if negative then "-inf" else "inf"
    case NaN => "nan"
  }

  /** The text of cell `i` of a column: `{}` for integers, `{:.4f}` for floating values. */
  function ValueText(c: Column, i: nat): string
    requires i < Length(c)
  {
    match At(c, i)
    case Integer(n) => IntText(n)
    case Floating(f) => FloatText(f)
  }

  /** The texts of cell `i` of every column, in column order. */
  function RowTexts(cols: seq<Column>, i: nat): (r: seq<string>)
    requires forall c :: 0 <= c < |cols| ==> i < Length(cols[c])
    ensures |r| == |cols|
  {
    seq(|cols|, c requires 0 <= c < |cols| => ValueText(cols[c], i))
  }

  /**
   * Row `i` of the table: its number, the shown data cells and the info
   * cells. The closing bar is written only when there are no info columns.
   */
  function RowText(v: View, i: nat): string
    requires WellFormed(v) && i < v.size
  {
    Cell(NatText(i), IndexWidth(v.size)) + Cells(RowTexts(v.shown, i), v.cellWidth)
      + Cells(RowTexts(v.info, i), v.cellWidth) + (if v.info == [] then "|" else "") + "\n"
  }

  /** One drawing step of the report. */
  datatype Line =
    | Border                          // a line of dashes across the whole table
    | Banner(text: string)            // a text centred across the whole table
    | Header                          // the column names
    | RowSeparator                    // dashes cell by cell
    | Skip                            // rows left out
    | Row(row: nat)                   // one row of cells
    | Blank                           // an empty line
    | DetailRule                      // a line of dashes across the detail section
    | DetailCentered(caption: string) // a text centred across the detail section
    | DetailLeft(entry: string)       // a text left aligned in the detail section

  /** Every row line names an existing row. */
  predicate Printable(v: View, lines: seq<Line>) {
    forall k :: 0 <= k < |lines| && lines[k].Row? ==> lines[k].row < v.size
  }

  /**
   * The text of one line. An empty line is the text of no lines followed by
   * a line break; this makes RenderLine and Render one recursive group, so a
   * line's text is only expanded where a proof asks for it.
   */
  function RenderLine(v: View, l: Line): string
    requires WellFormed(v) && (l.Row? ==> l.row < v.size)
    decreases 0, 2
  {
    match l
    case Border => RuleText(LineSize(v))
    case Banner(s) => BannerText(s, LineSize(v))
    case Header => HeaderText(v)
    case RowSeparator => SeparatorText(v)
    case Skip => SkipText(v)
    case Row(i) => RowText(v, i)
    case Blank => Render(v, []) + "\n"  // just "\n"; written through Render to keep the recursive group
    case DetailRule => RuleText(DetailWidth)
    case DetailCentered(s) => BannerText(s, DetailWidth)
    case DetailLeft(s) => LeftText(s, DetailWidth)
  }

  /** The texts of the lines that span the table. */
  lemma TableLineTexts(v: View, s: string)
    requires WellFormed(v)
    ensures RenderLine(v, Border) == RuleText(LineSize(v))
    ensures RenderLine(v, Banner(s)) == BannerText(s, LineSize(v))
    ensures RenderLine(v, Header) == HeaderText(v)
    ensures RenderLine(v, RowSeparator) == SeparatorText(v)
    ensures RenderLine(v, Skip) == SkipText(v)
  {
  }

  /** The text of the line of row `i`. */
  lemma RowLineText(v: View, i: nat)
    requires WellFormed(v) && i < v.size
    ensures RenderLine(v, Row(i)) == RowText(v, i)
  {
  }

  /** The texts of the lines of the detail section. */
  lemma DetailLineTexts(v: View, s: string)
    requires WellFormed(v)
    ensures RenderLine(v, DetailCentered(s)) == BannerText(s, DetailWidth)
    ensures RenderLine(v, DetailLeft(s)) == LeftText(s, DetailWidth)
    ensures RenderLine(v, DetailRule) == RuleText(DetailWidth)
    ensures RenderLine(v, Blank) == "\n"
  {
  }

  /** The text of a sequence of lines. */
  function Render(v: View, lines: seq<Line>): string
    requires WellFormed(v) && Printable(v, lines)
    decreases |lines|, 1
  {
    if lines == [] then ""
    else Render(v, lines[..|lines| - 1]) + RenderLine(v, lines[|lines| - 1])
  }

  /** Drawing one more line appends its text. */
  lemma RenderAppend(v: View, lines: seq<Line>, l: Line)
    requires WellFormed(v) && Printable(v, lines) && (l.Row? ==> l.row < v.size)
    ensures Printable(v, lines + [l])
    ensures Render(v, lines + [l]) == Render(v, lines) + RenderLine(v, l)
  {
    assert (lines + [l])[..|lines|] == lines;
  }

  /** The text of one line. */
  lemma RenderOne(v: View, l: Line)
    requires WellFormed(v) && (l.Row? ==> l.row < v.size)
    ensures Printable(v, [l]) && Render(v, [l]) == RenderLine(v, l)
  {
    assert [l][..0] == [];
    EmptyLeft(RenderLine(v, l));
  }

  /** The text of three lines, none of them a row, is their texts in order. */
  lemma RenderThree(v: View, l0: Line, l1: Line, l2: Line)
    requires WellFormed(v) && !l0.Row? && !l1.Row? && !l2.Row?
    ensures Printable(v, [l0, l1, l2])
    ensures Render(v, [l0, l1, l2]) == RenderLine(v, l0) + RenderLine(v, l1) + RenderLine(v, l2)
  {
    RenderOne(v, l0);
    RenderAppend(v, [l0], l1);
    assert [l0] + [l1] == [l0, l1];
    RenderAppend(v, [l0, l1], l2);
    assert [l0, l1] + [l2] == [l0, l1, l2];
  }

  /** Likewise for five lines. */
  lemma RenderFive(v: View, l0: Line, l1: Line, l2: Line, l3: Line, l4: Line)
    requires WellFormed(v) && !l0.Row? && !l1.Row? && !l2.Row? && !l3.Row? && !l4.Row?
    ensures Printable(v, [l0, l1, l2, l3, l4])
    ensures Render(v, [l0, l1, l2, l3, l4]) == RenderLine(v, l0) + RenderLine(v, l1) + RenderLine(v, l2)
      + RenderLine(v, l3) + RenderLine(v, l4)
  {
    RenderThree(v, l0, l1, l2);
    RenderAppend(v, [l0, l1, l2], l3);
    assert [l0, l1, l2] + [l3] == [l0, l1, l2, l3];
    RenderAppend(v, [l0, l1, l2, l3], l4);
    assert [l0, l1, l2, l3] + [l4] == [l0, l1, l2, l3, l4];
  }

  /** Likewise for six lines. */
  lemma RenderSix(v: View, l0: Line, l1: Line, l2: Line, l3: Line, l4: Line, l5: Line)
    requires WellFormed(v) && !l0.Row? && !l1.Row? && !l2.Row? && !l3.Row? && !l4.Row? && !l5.Row?
    ensures Printable(v, [l0, l1, l2, l3, l4, l5])
    ensures Render(v, [l0, l1, l2, l3, l4, l5]) == RenderLine(v, l0) + RenderLine(v, l1) + RenderLine(v, l2)
      + RenderLine(v, l3) + RenderLine(v, l4) + RenderLine(v, l5)
  {
    RenderFive(v, l0, l1, l2, l3, l4);
    RenderAppend(v, [l0, l1, l2, l3, l4], l5);
    assert [l0, l1, l2, l3, l4] + [l5] == [l0, l1, l2, l3, l4, l5];
  }

  /** The six detail lines of a candidate render to its detail text. */
  lemma RenderDetail(v: View, st: TestStatistic, c: nat)
    requires WellFormed(v) && 1 <= c < |v.names| && Covers(v, st)
    ensures Printable(v, DetailEntries(v, st, c))
    ensures Render(v, DetailEntries(v, st, c)) == DetailText(v, st, c)
  {
    var d := st.diffs[c - 1];
    var caption := GoldenCaption(v.names[0], v.names[c]);
    DetailLineTexts(v, caption);
    DetailLineTexts(v, "");
    DetailLineTexts(v, HashEntry(d.diffHash));
    DetailLineTexts(v, SizeEntry(v.size));
    DetailLineTexts(v, CountEntry(d.mismatchCount));
    DetailLineTexts(v, MatchEntry(d.matchPercent));
    RenderSix(v, DetailCentered(caption), DetailCentered(""), DetailLeft(HashEntry(d.diffHash)),
              DetailLeft(SizeEntry(v.size)), DetailLeft(CountEntry(d.mismatchCount)), DetailLeft(MatchEntry(d.matchPercent)));
  }

  /** The text of a passing report: a rule, `<name>: PASS` and a rule. */
  lemma PassText(v: View)
    requires WellFormed(v)
    ensures Printable(v, PassLines(v))
    ensures Render(v, PassLines(v)) == RuleText(LineSize(v)) + BannerText(v.tableName + ": PASS", LineSize(v))
      + RuleText(LineSize(v))
  {
    TableLineTexts(v, v.tableName + ": PASS");
    RenderThree(v, Border, Banner(v.tableName + ": PASS"), Border);
  }

  /** What follows the first rule of a failing report down to the separator under the header. */
  function HeadRest(v: View): string
    requires v.size >= 1
  {
    BannerText("TEST: " + v.tableName, LineSize(v)) + RuleText(LineSize(v)) + HeaderText(v) + SeparatorText(v)
  }

  /** Rules of equal widths are equal. */
  lemma SameRule(x: nat, y: nat)
    requires x == y
    ensures RuleText(x) == RuleText(y)
  {
  }

  /** The head's parts, given the Id column width `idx` and the line size `ls`. */
  lemma HeadRestParts(v: View, idx: nat, ls: nat)
    requires v.size >= 1 && idx == IndexWidth(v.size) && ls == LineSize(v)
    ensures HeadRest(v) == BannerText("TEST: " + v.tableName, ls) + RuleText(ls)
      + (Cell("Id", idx) + Cells(v.names, v.cellWidth) + Cells(v.infoNames, v.cellWidth)
         + (if v.infoNames == [] then "|" else "") + "\n")
      + (DashCell(idx) + Times(DashCell(v.cellWidth), |v.names|) + "|\n")
  {
  }

  /** The skip line, given the Id column width `idx`. */
  lemma SkipParts(v: View, idx: nat)
    requires v.size >= 1 && idx == IndexWidth(v.size)
    ensures SkipText(v) == Cell("..", idx) + Times(Cell("...", v.cellWidth), |v.names|) + "|\n"
  {
  }

  /** The row separator, given the Id column width `idx`. */
  lemma SeparatorParts(v: View, idx: nat)
    requires v.size >= 1 && idx == IndexWidth(v.size)
    ensures SeparatorText(v) == DashCell(idx) + Times(DashCell(v.cellWidth), |v.names|) + "|\n"
  {
  }

  /** The opening lines are a rule, the rest of the head and, when rows before `f` are left out, a skip line. */
  lemma OpeningText(v: View, f: nat)
    requires WellFormed(v)
    ensures Printable(v, OpeningLines(v, f))
    ensures Render(v, OpeningLines(v, f)) == RuleText(LineSize(v)) + HeadRest(v) + (if f != 0 then SkipText(v) else "")
  {
    var ls := LineSize(v);
    var head := HeadLines(v);
    TableLineTexts(v, "TEST: " + v.tableName);
    RenderFive(v, Border, Banner("TEST: " + v.tableName), Border, Header, RowSeparator);
    Concat4(RuleText(ls), BannerText("TEST: " + v.tableName, ls), RuleText(ls), HeaderText(v), SeparatorText(v));
    if f != 0 {
      RenderAppend(v, head, Skip);
    } else {
      assert OpeningLines(v, f) == head;
      EmptyRight(Render(v, head));
    }
  }

  /** The text of the lines between the rows and the detail blocks. */
  function TailText(v: View): string
    requires v.size >= 1
  {
    RuleText(LineSize(v)) + BannerText(v.tableName + ": DIFF", LineSize(v))
      + BannerText("Blobs are NOT equal!", LineSize(v)) + RuleText(LineSize(v)) + "\n" + RuleText(DetailWidth)
  }

  lemma RenderTail(v: View)
    requires WellFormed(v)
    ensures Printable(v, TailLines(v)) && Render(v, TailLines(v)) == TailText(v)
  {
    TableLineTexts(v, v.tableName + ": DIFF");
    TableLineTexts(v, "Blobs are NOT equal!");
    DetailLineTexts(v, "");
    RenderSix(v, Border, Banner(v.tableName + ": DIFF"), Banner("Blobs are NOT equal!"), Border, Blank, DetailRule);
  }

  /**
   * The text of the lines of row `i`: the row, the skip line when it is the
   * window's last row and the separator when it closes a packet.
   */
  lemma BlockText(v: View, i: nat, m: nat)
    requires WellFormed(v) && i < v.size
    ensures Printable(v, RowBlock(v, i, m))
    ensures Render(v, RowBlock(v, i, m)) == RowText(v, i) + (if i + 1 == m then SkipText(v) else "")
      + (if Separates(v, i) then SeparatorText(v) else "")
  {
    var a := [Row(i)] + (if i + 1 == m then [Skip] else []);
    RowLineText(v, i);
    TableLineTexts(v, "");
    RenderOne(v, Row(i));
    if i + 1 == m {
      RenderAppend(v, [Row(i)], Skip);
    } else {
      assert a == [Row(i)];
      EmptyRight(RowText(v, i));
    }
    if Separates(v, i) {
      assert RowBlock(v, i, m) == a + [RowSeparator];
      RenderAppend(v, a, RowSeparator);
    } else {
      assert RowBlock(v, i, m) == a;
      EmptyRight(Render(v, a));
    }
  }

  /** Drawing the lines of one more row appends their text. */
  lemma RowsStep(v: View, from: nat, k: nat, m: nat)
    requires WellFormed(v) && from <= k < v.size
    ensures Printable(v, RowsUpTo(v, from, k, m)) && Printable(v, RowsUpTo(v, from, k + 1, m))
    ensures Render(v, RowsUpTo(v, from, k + 1, m)) == Render(v, RowsUpTo(v, from, k, m)) + Render(v, RowBlock(v, k, m))
  {
    RowsPrintable(v, from, k, m);
    RowsPrintable(v, from, k + 1, m);
    BlockText(v, k, m);
    RenderConcat(v, RowsUpTo(v, from, k, m), RowBlock(v, k, m));
  }

  /** Text holding the lines of rows `from` .. k - 1, followed by those of row `k`, holds the lines of rows `from` .. k. */
  lemma RowsAdvance(v: View, from: nat, k: nat, next: nat, m: nat, start: string, t: string, t': string)
    requires WellFormed(v) && from <= k < v.size && next == k + 1
    requires Printable(v, RowsUpTo(v, from, k, m)) && t == start + Render(v, RowsUpTo(v, from, k, m))
    requires Printable(v, RowBlock(v, k, m)) && t' == t + Render(v, RowBlock(v, k, m))
    ensures Printable(v, RowsUpTo(v, from, next, m)) && t' == start + Render(v, RowsUpTo(v, from, next, m))
  {
    RowsStep(v, from, k, m);
    Associative(start, Render(v, RowsUpTo(v, from, k, m)), Render(v, RowBlock(v, k, m)));
  }

  /** Drawing the block of one more candidate appends its text, and an empty line unless it is the last. */
  lemma DetailsStep(v: View, st: TestStatistic, c: nat)
    requires WellFormed(v) && 1 <= c < |v.names| && Covers(v, st)
    ensures Printable(v, DetailsUpTo(v, st, c)) && Printable(v, DetailsUpTo(v, st, c + 1))
    ensures Render(v, DetailsUpTo(v, st, c + 1)) == Render(v, DetailsUpTo(v, st, c)) + DetailText(v, st, c)
      + (if c + 1 == |v.names| then "" else BannerText("", DetailWidth))
  {
    var entries, block := DetailEntries(v, st, c), DetailBlock(v, st, c);
    DetailsPrintable(v, st, c);
    DetailsPrintable(v, st, c + 1);
    RenderDetail(v, st, c);
    DetailLineTexts(v, "");
    if c + 1 == |v.names| {
      assert block == entries;
      EmptyRight(Render(v, entries));
    } else {
      assert block == entries + [DetailCentered("")];
      RenderAppend(v, entries, DetailCentered(""));
    }
    RenderConcat(v, DetailsUpTo(v, st, c), block);
    Associative(Render(v, DetailsUpTo(v, st, c)), DetailText(v, st, c),
      if c + 1 == |v.names| then "" else BannerText("", DetailWidth));
  }

  /** `t` is `start` followed by the detail blocks of candidates 1 .. k - 1. */
  predicate DetailsDrawn(v: View, st: TestStatistic, k: nat, start: string, t: string)
    requires WellFormed(v) && (k <= 1 || k <= |v.names|) && Covers(v, st)
  {
    Printable(v, DetailsUpTo(v, st, k)) && t == start + Render(v, DetailsUpTo(v, st, k))
  }

  /**
   * Text holding the blocks of candidates 1 .. c - 1, followed by the entries
   * of `c` and, unless `c` is the last, an empty line, holds the blocks of
   * candidates 1 .. c.
   */
  lemma DetailsAdvance(v: View, st: TestStatistic, c: nat, next: nat, start: string, t: string, mid: string, t': string)
    requires WellFormed(v) && 1 <= c < |v.names| && next == c + 1 && Covers(v, st) && DetailsDrawn(v, st, c, start, t)
    requires Printable(v, DetailEntries(v, st, c)) && mid == t + Render(v, DetailEntries(v, st, c))
    requires if next == |v.names| then t' == mid else t' == mid + BannerText("", DetailWidth)
    ensures DetailsDrawn(v, st, next, start, t')
  {
    var before := Render(v, DetailsUpTo(v, st, c));
    DetailsStep(v, st, c);
    RenderDetail(v, st, c);
    if c + 1 == |v.names| {
      EmptyRight(before + DetailText(v, st, c));
      Associative(start, before, DetailText(v, st, c));
    } else {
      Concat3(start, before, DetailText(v, st, c), BannerText("", DetailWidth));
    }
  }

  /** The closing lines are the tail, the detail blocks and the closing rule of the detail section. */
  lemma ClosingText(v: View, st: TestStatistic)
    requires WellFormed(v) && Covers(v, st)
    ensures Printable(v, DetailsUpTo(v, st, |v.names|)) && Printable(v, ClosingLines(v, st))
    ensures Render(v, ClosingLines(v, st)) == TailText(v) + Render(v, DetailsUpTo(v, st, |v.names|)) + RuleText(DetailWidth)
  {
    var details := DetailsUpTo(v, st, |v.names|);
    DetailsPrintable(v, st, |v.names|);
    ClosingPrintable(v, st);
    RenderTail(v);
    RenderConcat(v, TailLines(v), details);
    DetailLineTexts(v, "");
    RenderAppend(v, TailLines(v) + details, DetailRule);
  }

  /** A failing report is its opening lines, its window of rows and its closing lines, drawn one after the other. */
  lemma FailText(v: View, st: TestStatistic, f: nat)
    requires WellFormed(v) && Reportable(v, st) && st.firstWrongIndex == Some(f)
    ensures Printable(v, OpeningLines(v, f)) && Printable(v, WindowRows(v, f)) && Printable(v, ClosingLines(v, st))
    ensures Printable(v, ReportLines(v, st))
    ensures Render(v, ReportLines(v, st))
      == Render(v, OpeningLines(v, f)) + Render(v, WindowRows(v, f)) + Render(v, ClosingLines(v, st))
  {
    var opening, rows, closing := OpeningLines(v, f), WindowRows(v, f), ClosingLines(v, st);
    ReportPrintable(v, st);
    OpeningText(v, f);
    WindowPrintable(v, f);
    ClosingPrintable(v, st);
    RenderConcat(v, opening, rows);
    RenderConcat(v, opening + rows, closing);
  }

  /** A rule, `<name>: PASS` and a rule, drawn one after the other, make the report of a passing table. */
  lemma PassAssembly(v: View, st: TestStatistic, t0: string, t1: string, t2: string, t3: string)
    requires WellFormed(v) && Reportable(v, st) && st.firstWrongIndex.None?
    requires t1 == t0 + RuleText(LineSize(v)) && t2 == t1 + BannerText(v.tableName + ": PASS", LineSize(v))
    requires t3 == t2 + RuleText(LineSize(v))
    ensures t3 == t0 + ReportText(v, st)
  {
    PassText(v);
    Concat3(t0, RuleText(LineSize(v)), BannerText(v.tableName + ": PASS", LineSize(v)), RuleText(LineSize(v)));
  }

  /**
   * A rule, the rest of the head, the skip line when rows before `f` are
   * left out, the window of rows and the closing lines, drawn one after the
   * other, make the report of a table whose first mismatch is `f`.
   */
  lemma FailAssembly(v: View, st: TestStatistic, f: nat, t0: string, t1: string, t2: string, t3: string, t4: string, t5: string)
    requires WellFormed(v) && Reportable(v, st) && st.firstWrongIndex == Some(f)
    requires t1 == t0 + RuleText(LineSize(v)) && t2 == t1 + HeadRest(v)
    requires t3 == t2 + (if f != 0 then SkipText(v) else "")
    requires Printable(v, WindowRows(v, f)) && t4 == t3 + Render(v, WindowRows(v, f))
    requires Printable(v, ClosingLines(v, st)) && t5 == t4 + Render(v, ClosingLines(v, st))
    ensures t5 == t0 + ReportText(v, st)
  {
    OpeningText(v, f);
    FailText(v, st, f);
    Concat3(t0, RuleText(LineSize(v)), HeadRest(v), if f != 0 then SkipText(v) else "");
    Concat3(t0, Render(v, OpeningLines(v, f)), Render(v, WindowRows(v, f)), Render(v, ClosingLines(v, st)));
  }

  /** The text of two runs of lines is the text of the first followed by that of the second. */
  lemma {:induction false} RenderConcat(v: View, a: seq<Line>, b: seq<Line>)
    requires WellFormed(v) && Printable(v, a) && Printable(v, b)
    ensures Printable(v, a + b)
    ensures Render(v, a + b) == Render(v, a) + Render(v, b)
    decreases |b|
  {
    if b == [] {
      assert a + b == a;
    } else {
      var b', l := b[..|b| - 1], b[|b| - 1];
      assert b == b' + [l];
      assert a + b == (a + b') + [l];
      RenderConcat(v, a, b');
      RenderAppend(v, a + b', l);
      RenderAppend(v, b', l);
      Associative(Render(v, a), Render(v, b'), RenderLine(v, l));
    }
  }

  lemma Associative(x: string, y: string, z: string)
    ensures (x + y) + z == x + (y + z)
  {
  }

  lemma EmptyLeft(x: string)
    ensures "" + x == x
  {
  }

  lemma EmptyRight(x: string)
    ensures x + "" == x
  {
  }

  /** Three pieces appended one by one to `t` are `t` followed by their concatenation. */
  lemma Concat3(t: string, a: string, b: string, c: string)
    ensures t + a + b + c == t + (a + b + c)
  {
    Associative(t, a, b);
    Associative(t, a + b, c);
  }

  /** Likewise for four pieces. */
  lemma Concat4(t: string, a: string, b: string, c: string, d: string)
    ensures t + a + b + c + d == t + (a + b + c + d)
  {
    Concat3(t, a, b, c);
    Associative(t, a + b + c, d);
  }

  /** Four appends, one after the other, append the four pieces' concatenation. */
  lemma Chain4(t0: string, t1: string, t2: string, t3: string, t4: string, a: string, b: string, c: string, d: string)
    requires t1 == t0 + a && t2 == t1 + b && t3 == t2 + c && t4 == t3 + d
    ensures t4 == t0 + (a + b + c + d)
  {
    Concat4(t0, a, b, c, d);
  }

  /** Three appends, one after the other, append the three pieces' concatenation. */
  lemma Chain3(t0: string, t1: string, t2: string, t3: string, a: string, b: string, c: string)
    requires t1 == t0 + a && t2 == t1 + b && t3 == t2 + c
    ensures t3 == t0 + (a + b + c)
  {
    Concat3(t0, a, b, c);
  }

  /** Likewise for five pieces. */
  lemma Concat5(t: string, a: string, b: string, c: string, d: string, e: string)
    ensures t + a + b + c + d + e == t + (a + b + c + d + e)
  {
    Concat4(t, a, b, c, d);
    Associative(t, a + b + c + d, e);
  }

  /** Six pieces appended one by one to `t` are `t` followed by their concatenation. */
  lemma Concat6(t: string, a: string, b: string, c: string, d: string, e: string, f: string)
    ensures t + a + b + c + d + e + f == t + (a + b + c + d + e + f)
  {
    Concat5(t, a, b, c, d, e);
    Associative(t, a + b + c + d + e, f);
  }

  /**
   * A separator follows row `i` when rows are grouped in packets, `i` is the
   * last row of its packet by absolute row number, and `i` is not the last row.
   */
  predicate Separates(v: View, i: nat) {
    v.packetSize != 0 && (i + 1) % v.packetSize == 0 && i + 1 != v.size
  }

  /**
   * The lines drawn for row `i` when the window of printed rows ends before
   * row `m`: the row, then a skip line if it is the window's last row, then
   * a separator if it closes a packet.
   */
  function RowBlock(v: View, i: nat, m: nat): (r: seq<Line>)
  {
    [Row(i)] + (if i + 1 == m then [Skip] else []) + (if Separates(v, i) then [RowSeparator] else [])
  }

  /**
   * What the lines of one row hold: the row first, a skip line exactly when
   * it is the window's last row, a separator exactly when it closes a packet,
   * and the separator after the skip line when there are both.
   */
  lemma BlockLines(v: View, i: nat, m: nat)
    ensures var r := RowBlock(v, i, m);
      |r| >= 1 && r[0] == Row(i)
      && (Skip in r <==> i + 1 == m)
      && (RowSeparator in r <==> Separates(v, i))
      && (Skip in r && RowSeparator in r ==> r == [Row(i), Skip, RowSeparator])
  {
  }

  /** How many times `x` occurs in `lines`. */
  function Count(lines: seq<Line>, x: Line): nat {
    if lines == [] then 0
    else Count(lines[..|lines| - 1], x) + (if lines[|lines| - 1] == x then 1 else 0)
  }

  lemma {:induction false} CountAppend(a: seq<Line>, b: seq<Line>, x: Line)
    ensures Count(a + b, x) == Count(a, x) + Count(b, x)
    decreases |b|
  {
    if b == [] {
      assert a + b == a;
    } else {
      var b' := b[..|b| - 1];
      assert (a + b)[..|a + b| - 1] == a + b';
      CountAppend(a, b', x);
    }
  }

  lemma {:induction false} CountAbsent(lines: seq<Line>, x: Line)
    requires x !in lines
    ensures Count(lines, x) == 0
  {
    if lines != [] {
      CountAbsent(lines[..|lines| - 1], x);
    }
  }

  /** One skip line in the lines of the window's last row, none in the others. */
  lemma BlockSkips(v: View, i: nat, m: nat)
    ensures Count(RowBlock(v, i, m), Skip) == if i + 1 == m then 1 else 0
  {
    var a := [Row(i)] + (if i + 1 == m then [Skip] else []);
    var b := if Separates(v, i) then [RowSeparator] else [];
    assert RowBlock(v, i, m) == a + b;
    CountAppend(a, b, Skip);
    CountAbsent(b, Skip);
    CountAppend([Row(i)], a[1..], Skip);
    assert a == [Row(i)] + a[1..];
    CountAbsent([Row(i)], Skip);
    if i + 1 == m {
      assert a[1..] == [Skip];
      assert [Skip][..0] == [];
    } else {
      assert a[1..] == [];
    }
  }

  /** The lines drawn for rows `from` .. k - 1 with window end `m`. */
  function RowsUpTo(v: View, from: nat, k: nat, m: nat): (r: seq<Line>)
    requires from <= k
    decreases k
  {
    if k == from then [] else RowsUpTo(v, from, k - 1, m) + RowBlock(v, k - 1, m)
  }

  /** The lines of rows `from` .. k - 1 name only those rows. */
  lemma {:induction false} RowsUpToBounds(v: View, from: nat, k: nat, m: nat)
    requires from <= k
    ensures forall l :: l in RowsUpTo(v, from, k, m) && l.Row? ==> from <= l.row < k
    decreases k
  {
    if k > from {
      RowsUpToBounds(v, from, k - 1, m);
      assert forall l :: l in RowBlock(v, k - 1, m) && l.Row? ==> l.row == k - 1;
    }
  }

  /** max(table_height, 1): the number of rows printed from the first mismatch on. */
  function Height(v: View): nat {
    Max(v.tableHeight, 1)
  }

  /** One past the last printed row when the first mismatch is at row `f`. */
  function WindowEnd(v: View, f: nat): (e: nat)
    requires f < v.size
    ensures f < e <= v.size && e <= f + Height(v)
  {
    Min(f + Height(v), v.size)
  }

  /** `Golden "ref" vs "cand"`. */
  function GoldenCaption(reference: string, candidate: string): string {
    "Golden \"" + reference + "\" vs \"" + candidate + "\""
  }

  function HashEntry(hash: Option<string>): string {
    " Diff hash  :   " + (match hash case Some(h) => h case None => "")
  }

  function SizeEntry(size: nat): string {
    " Data size  :   " + NatText(size)
  }

  function CountEntry(count: nat): string {
    " Diff count :   " + NatText(count)
  }

  function MatchEntry(percent: real): string {
    " Match :        " + FixedText(percent, 2) + " %"
  }

  /** The statistics cover every candidate. */
  predicate Covers(v: View, st: TestStatistic) {
    |st.diffs| + 1 >= |v.names|
  }

  /** The six lines describing candidate `c` against column 0. */
  function DetailEntries(v: View, st: TestStatistic, c: nat): (r: seq<Line>)
    requires 1 <= c < |v.names| && Covers(v, st)
    ensures |r| == 6
  {
    var d := st.diffs[c - 1];
    [DetailCentered(GoldenCaption(v.names[0], v.names[c])),
     DetailCentered(""),
     DetailLeft(HashEntry(d.diffHash)),
     DetailLeft(SizeEntry(v.size)),
     DetailLeft(CountEntry(d.mismatchCount)),
     DetailLeft(MatchEntry(d.matchPercent))]
  }

  /** The text of the six lines describing candidate `c`. */
  function DetailText(v: View, st: TestStatistic, c: nat): string
    requires 1 <= c < |v.names| && Covers(v, st)
  {
    var d := st.diffs[c - 1];
    BannerText(GoldenCaption(v.names[0], v.names[c]), DetailWidth) + BannerText("", DetailWidth)
      + LeftText(HashEntry(d.diffHash), DetailWidth) + LeftText(SizeEntry(v.size), DetailWidth)
      + LeftText(CountEntry(d.mismatchCount), DetailWidth) + LeftText(MatchEntry(d.matchPercent), DetailWidth)
  }

  /** The detail block of candidate `c`: its entries and, unless it is the last, an empty line. */
  function DetailBlock(v: View, st: TestStatistic, c: nat): seq<Line>
    requires 1 <= c < |v.names| && Covers(v, st)
  {
    DetailEntries(v, st, c) + (if c + 1 == |v.names| then [] else [DetailCentered("")])
  }

  /** The detail blocks of candidates 1 .. k - 1. */
  function DetailsUpTo(v: View, st: TestStatistic, k: nat): (r: seq<Line>)
    requires (k <= 1 || k <= |v.names|) && Covers(v, st)
  {
    if k <= 1 then [] else DetailsUpTo(v, st, k - 1) + DetailBlock(v, st, k - 1)
  }

  /** The first lines of a failing report, down to the separator under the header. */
  function HeadLines(v: View): seq<Line> {
    [Border, Banner("TEST: " + v.tableName), Border, Header, RowSeparator]
  }

  /** The lines between the table rows and the detail blocks. */
  function TailLines(v: View): seq<Line> {
    [Border, Banner(v.tableName + ": DIFF"), Banner("Blobs are NOT equal!"), Border, Blank, DetailRule]
  }

  /** What the statistics of a table of `v.size` rows can be. */
  predicate Reportable(v: View, st: TestStatistic) {
    Covers(v, st) && (st.firstWrongIndex.Some? ==> st.firstWrongIndex.value < v.size)
  }

  /** The report of a passing table. */
  function PassLines(v: View): seq<Line> {
    [Border, Banner(v.tableName + ": PASS"), Border]
  }

  /** The lines of a failing report above the rows: a skip line follows the head lines when rows before `f` are left out. */
  function OpeningLines(v: View, f: nat): seq<Line> {
    HeadLines(v) + (if f != 0 then [Skip] else [])
  }

  /** The rows printed from the first mismatch `f` on, with their skip and separator lines. */
  function WindowRows(v: View, f: nat): seq<Line>
    requires f < v.size
  {
    RowsUpTo(v, f, WindowEnd(v, f), f + Height(v))
  }

  /** The row loop stops at the end of the window, having drawn its rows. */
  lemma WindowDone(v: View, f: nat, k: nat, m: nat, start: string, t: string)
    requires WellFormed(v) && f < v.size && k == WindowEnd(v, f) && m == f + Height(v)
    requires Printable(v, RowsUpTo(v, f, k, m)) && t == start + Render(v, RowsUpTo(v, f, k, m))
    ensures Printable(v, WindowRows(v, f)) && t == start + Render(v, WindowRows(v, f))
  {
  }

  /** The lines of a failing report below the rows: the DIFF banners, the detail blocks and a closing rule. */
  function ClosingLines(v: View, st: TestStatistic): seq<Line>
    requires Covers(v, st)
  {
    TailLines(v) + DetailsUpTo(v, st, |v.names|) + [DetailRule]
  }

  /**
   * The report of a table with statistics `st`: the pass lines for a
   * passing table; for a failing one, with first mismatch f, the opening
   * lines, the rows f .. min(f + H, size) - 1 and the closing lines.
   */
  function ReportLines(v: View, st: TestStatistic): seq<Line>
    requires Reportable(v, st)
  {
    match st.firstWrongIndex
    case None => PassLines(v)
    case Some(f) => OpeningLines(v, f) + WindowRows(v, f) + ClosingLines(v, st)
  }

  /** The detail blocks hold only detail lines. */
  lemma {:induction false} DetailKinds(v: View, st: TestStatistic, k: nat)
    requires k <= |v.names| && Covers(v, st)
    ensures forall l :: l in DetailsUpTo(v, st, k) ==> l.DetailCentered? || l.DetailLeft?
  {
    if k > 1 {
      DetailKinds(v, st, k - 1);
    }
  }

  /** Only the rows of the window are row lines of a report. */
  lemma ReportPrintable(v: View, st: TestStatistic)
    requires Reportable(v, st)
    ensures Printable(v, ReportLines(v, st))
  {
    if st.firstWrongIndex.Some? {
      var f := st.firstWrongIndex.value;
      var opening, rows, closing := OpeningLines(v, f), WindowRows(v, f), ClosingLines(v, st);
      WindowPrintable(v, f);
      ClosingPrintable(v, st);
      PrintableConcat(v, opening, rows);
      PrintableConcat(v, opening + rows, closing);
    }
  }

  /** Lines are printable when every row line among them names a row of the table. */
  lemma PrintableOf(v: View, lines: seq<Line>)
    requires forall l :: l in lines && l.Row? ==> l.row < v.size
    ensures Printable(v, lines)
  {
    forall k | 0 <= k < |lines| && lines[k].Row?
      ensures lines[k].row < v.size
    {
      assert lines[k] in lines;
    }
  }

  /** The detail blocks hold no row line. */
  lemma DetailsPrintable(v: View, st: TestStatistic, k: nat)
    requires k <= |v.names| && Covers(v, st)
    ensures Printable(v, DetailsUpTo(v, st, k))
  {
    DetailKinds(v, st, k);
    PrintableOf(v, DetailsUpTo(v, st, k));
  }

  /** The closing lines hold no row line. */
  lemma ClosingPrintable(v: View, st: TestStatistic)
    requires Covers(v, st)
    ensures Printable(v, ClosingLines(v, st))
  {
    DetailKinds(v, st, |v.names|);
    PrintableOf(v, ClosingLines(v, st));
  }

  /** The lines of rows `from` .. k - 1 are printable when k is at most the row count. */
  lemma RowsPrintable(v: View, from: nat, k: nat, m: nat)
    requires from <= k <= v.size
    ensures Printable(v, RowsUpTo(v, from, k, m))
  {
    RowsUpToBounds(v, from, k, m);
    PrintableOf(v, RowsUpTo(v, from, k, m));
  }

  /** The window's lines are printable. */
  lemma WindowPrintable(v: View, f: nat)
    requires f < v.size
    ensures Printable(v, WindowRows(v, f))
  {
    RowsPrintable(v, f, WindowEnd(v, f), f + Height(v));
  }

  lemma PrintableConcat(v: View, a: seq<Line>, b: seq<Line>)
    requires Printable(v, a) && Printable(v, b)
    ensures Printable(v, a + b)
  {
  }

  /** The text of the report. */
  function ReportText(v: View, st: TestStatistic): string
    requires WellFormed(v) && Reportable(v, st)
  {
    ReportPrintable(v, st);
    Render(v, ReportLines(v, st))
  }

  /**
   * A passing report is exactly a border, `<name>: PASS` and a border, with
   * no header and no rows. A failing one opens with a border, `TEST: <name>`,
   * a border, the header and a separator, carries the `<name>: DIFF` and
   * `Blobs are NOT equal!` banners, and ends with a rule.
   */
  lemma PassOrDiff(v: View, st: TestStatistic)
    requires Reportable(v, st)
    ensures var r := ReportLines(v, st);
      (st.firstWrongIndex.None? <==> Header !in r)
      && (st.firstWrongIndex.None? ==> r == [Border, Banner(v.tableName + ": PASS"), Border])
      && (st.firstWrongIndex.Some? ==>
            |r| >= 6 && r[..5] == HeadLines(v) && r[|r| - 1] == DetailRule
            && Banner(v.tableName + ": DIFF") in r && Banner("Blobs are NOT equal!") in r)
  {
    var r := ReportLines(v, st);
    if st.firstWrongIndex.Some? {
      var f := st.firstWrongIndex.value;
      var opening, rows, closing := OpeningLines(v, f), WindowRows(v, f), ClosingLines(v, st);
      assert r == opening + rows + closing;
      assert r[3] == Header;
      assert (opening + rows)[..5] == HeadLines(v);
      assert r[..5] == HeadLines(v);
      assert closing[1] == Banner(v.tableName + ": DIFF");
      assert closing[2] == Banner("Blobs are NOT equal!");
      assert closing[1] in r && closing[2] in r;
    }
  }

  // Which rows are printed

  /** The row numbers of the row lines, in order. */
  function RowIndices(lines: seq<Line>): seq<nat> {
    if lines == [] then []
    else RowIndices(lines[..|lines| - 1]) + (if lines[|lines| - 1].Row? then [lines[|lines| - 1].row] else [])
  }

  /** lo, lo + 1, .., hi - 1. */
  function Range(lo: nat, hi: nat): (r: seq<nat>)
    ensures |r| == if hi <= lo then 0 else hi - lo
    ensures forall k :: 0 <= k < |r| ==> r[k] == lo + k
  {
    if hi <= lo then [] else Range(lo, hi - 1) + [hi - 1]
  }

  lemma {:induction false} RowIndicesAppend(a: seq<Line>, b: seq<Line>)
    ensures RowIndices(a + b) == RowIndices(a) + RowIndices(b)
    decreases |b|
  {
    if b == [] {
      assert a + b == a;
    } else {
      var b' := b[..|b| - 1];
      assert (a + b)[..|a + b| - 1] == a + b';
      RowIndicesAppend(a, b');
    }
  }

  /** The lines drawn for one row hold that row and no other. */
  lemma BlockIndices(v: View, i: nat, m: nat)
    ensures RowIndices(RowBlock(v, i, m)) == [i]
  {
    var block := RowBlock(v, i, m);
    var rest := block[1..];
    assert block == [Row(i)] + rest;
    assert forall l :: l in rest ==> !l.Row?;
    NoRows(rest);
    RowIndicesAppend([Row(i)], rest);
    assert [Row(i)][..0] == [];
  }

  lemma {:induction false} RowsUpToIndices(v: View, from: nat, k: nat, m: nat)
    requires from <= k
    ensures RowIndices(RowsUpTo(v, from, k, m)) == Range(from, k)
    decreases k
  {
    if k > from {
      var prev, block := RowsUpTo(v, from, k - 1, m), RowBlock(v, k - 1, m);
      RowsUpToIndices(v, from, k - 1, m);
      BlockIndices(v, k - 1, m);
      IndicesStep(prev, block, from, k);
    }
  }

  lemma IndicesStep(prev: seq<Line>, block: seq<Line>, from: nat, k: nat)
    requires from < k && RowIndices(prev) == Range(from, k - 1) && RowIndices(block) == [k - 1]
    ensures RowIndices(prev + block) == Range(from, k)
  {
    RowIndicesAppend(prev, block);
  }

  /**
   * The rows printed are exactly f, f + 1, .., min(f + H, size) - 1 in
   * ascending order, where f is the first mismatch and H = max(table_height, 1);
   * a passing table prints no rows.
   */
  lemma PrintedRows(v: View, st: TestStatistic)
    requires Reportable(v, st)
    ensures st.firstWrongIndex.None? ==> RowIndices(ReportLines(v, st)) == []
    ensures st.firstWrongIndex.Some? ==>
      var f := st.firstWrongIndex.value;
      RowIndices(ReportLines(v, st)) == Range(f, Min(f + Height(v), v.size))
  {
    match st.firstWrongIndex
    case None =>
      NoRows(PassLines(v));
    case Some(f) =>
      DiffRows(v, st, f);
  }

  /** The row lines of a failing report are those of its window. */
  lemma DiffRows(v: View, st: TestStatistic, f: nat)
    requires Reportable(v, st) && st.firstWrongIndex == Some(f)
    ensures RowIndices(ReportLines(v, st)) == Range(f, WindowEnd(v, f))
  {
    var opening, rows, closing := OpeningLines(v, f), WindowRows(v, f), ClosingLines(v, st);
    assert ReportLines(v, st) == opening + rows + closing;
    NoRows(opening);
    DetailKinds(v, st, |v.names|);
    NoRows(closing);
    WindowIndices(v, f);
    RowIndicesAppend(opening, rows);
    RowIndicesAppend(opening + rows, closing);
    assert RowIndices(opening + rows) == RowIndices(rows) by {
      assert [] + RowIndices(rows) == RowIndices(rows);
    }
    assert RowIndices(opening + rows) + [] == RowIndices(opening + rows);
  }

  /** The row lines of the window are its rows in order. */
  lemma WindowIndices(v: View, f: nat)
    requires f < v.size
    ensures RowIndices(WindowRows(v, f)) == Range(f, WindowEnd(v, f))
  {
    RowsUpToIndices(v, f, WindowEnd(v, f), f + Height(v));
  }

  function Min(a: nat, b: nat): nat {
    if a < b then a else b
  }

  /** Lines without a row line have no row indices. */
  lemma {:induction false} NoRows(lines: seq<Line>)
    requires forall l :: l in lines ==> !l.Row?
    ensures RowIndices(lines) == []
  {
    if lines != [] {
      NoRows(lines[..|lines| - 1]);
    }
  }

  // Skip lines

  lemma {:induction false} RowsUpToSkips(v: View, from: nat, k: nat, m: nat)
    requires from <= k && from < m
    ensures Count(RowsUpTo(v, from, k, m), Skip) == if m <= k then 1 else 0
    decreases k
  {
    if k > from {
      CountAppend(RowsUpTo(v, from, k - 1, m), RowBlock(v, k - 1, m), Skip);
      BlockSkips(v, k - 1, m);
      RowsUpToSkips(v, from, k - 1, m);
    }
  }

  /**
   * A failing report has a skip line after the header exactly when the first
   * mismatch is not row 0, and one after the last printed row exactly when
   * the window f .. f + H - 1 fits in the table (also when it ends on the
   * last row); there are no other skip lines.
   */
  lemma SkipLines(v: View, st: TestStatistic)
    requires Reportable(v, st) && st.firstWrongIndex.Some?
    ensures var f := st.firstWrongIndex.value;
      var r := ReportLines(v, st);
      |r| > 5 && (r[5] == Skip <==> f != 0)
      && Count(r, Skip) == (if f != 0 then 1 else 0) + (if f + Height(v) <= v.size then 1 else 0)
  {
    var f := st.firstWrongIndex.value;
    var opening, rows, closing := OpeningLines(v, f), WindowRows(v, f), ClosingLines(v, st);
    assert ReportLines(v, st) == opening + rows + closing;
    OpeningSkips(v, f);
    WindowSkips(v, f);
    ClosingSkips(v, st);
    CountAppend(opening + rows, closing, Skip);
    CountAppend(opening, rows, Skip);
    FirstRow(v, f, WindowEnd(v, f), f + Height(v));
    SixthLine(opening, rows, closing);
  }

  lemma SixthLine(opening: seq<Line>, rows: seq<Line>, closing: seq<Line>)
    requires 5 <= |opening| <= 6 && |rows| >= 1
    ensures (opening + rows + closing)[5] == if |opening| == 5 then rows[0] else opening[5]
  {
  }

  /** The closing lines hold no skip line. */
  lemma ClosingSkips(v: View, st: TestStatistic)
    requires Covers(v, st)
    ensures Count(ClosingLines(v, st), Skip) == 0
  {
    DetailKinds(v, st, |v.names|);
    assert Skip !in ClosingLines(v, st);
    CountAbsent(ClosingLines(v, st), Skip);
  }

  /** The opening lines hold a skip line, as their sixth line, only when rows before `f` are left out. */
  lemma OpeningSkips(v: View, f: nat)
    ensures |OpeningLines(v, f)| == 5 + (if f != 0 then 1 else 0)
    ensures f != 0 ==> OpeningLines(v, f)[5] == Skip
    ensures Count(OpeningLines(v, f), Skip) == if f != 0 then 1 else 0
  {
    var head := HeadLines(v);
    CountAbsent(head, Skip);
    if f != 0 {
      CountAppend(head, [Skip], Skip);
      assert [Skip][..0] == [];
    } else {
      assert OpeningLines(v, f) == head;
    }
  }

  /** The window's rows hold a skip line only when the window fits in the table. */
  lemma WindowSkips(v: View, f: nat)
    requires f < v.size
    ensures Count(WindowRows(v, f), Skip) == if f + Height(v) <= v.size then 1 else 0
  {
    RowsUpToSkips(v, f, WindowEnd(v, f), f + Height(v));
  }

  /** The first line drawn for a non-empty run of rows is its first row. */
  lemma {:induction false} FirstRow(v: View, from: nat, k: nat, m: nat)
    requires from < k
    ensures |RowsUpTo(v, from, k, m)| >= 1 && RowsUpTo(v, from, k, m)[0] == Row(from)
    decreases k
  {
    assert RowBlock(v, k - 1, m)[0] == Row(k - 1);
    if k - 1 > from {
      FirstRow(v, from, k - 1, m);
    }
  }

  // Detail blocks

  /** The detail blocks before the last take seven lines each. */
  lemma {:induction false} DetailsLength(v: View, st: TestStatistic, k: nat)
    requires 1 <= k < |v.names| && Covers(v, st)
    ensures |DetailsUpTo(v, st, k)| == 7 * (k - 1)
  {
    if k > 1 {
      DetailsLength(v, st, k - 1);
    }
  }

  /**
   * The entries of candidate `c` start at line 7 * (c - 1) of the details:
   * the blocks come in column order, one per candidate.
   */
  lemma {:induction false} DetailOrder(v: View, st: TestStatistic, k: nat, c: nat)
    requires 1 <= c < k <= |v.names| && Covers(v, st)
    ensures 7 * (c - 1) + 6 <= |DetailsUpTo(v, st, k)|
    ensures DetailsUpTo(v, st, k)[7 * (c - 1) .. 7 * (c - 1) + 6] == DetailEntries(v, st, c)
  {
    var prev, block := DetailsUpTo(v, st, k - 1), DetailBlock(v, st, k - 1);
    var p := 7 * (c - 1);
    assert DetailsUpTo(v, st, k) == prev + block;
    if c == k - 1 {
      DetailsLength(v, st, k - 1);
      assert block[..6] == DetailEntries(v, st, c);
      SliceRight(prev, block, 6);
    } else {
      DetailOrder(v, st, k - 1, c);
      SliceLeft(prev, block, p, p + 6);
    }
  }

  lemma SliceLeft(a: seq<Line>, b: seq<Line>, i: nat, j: nat)
    requires i <= j <= |a|
    ensures (a + b)[i..j] == a[i..j]
  {
  }

  lemma SliceRight(a: seq<Line>, b: seq<Line>, j: nat)
    requires j <= |b|
    ensures (a + b)[|a|..|a| + j] == b[..j]
  {
  }

  // Widths

  lemma Distribute(n: int, w: int)
    ensures n * (w + 1) == w * n + n
  {
  }

  /**
   * The border and every centred banner that fits span the table: the
   * cells, the Id column, one bar per data column and the two outer bars,
   * plus the newline.
   */
  lemma BorderWidth(v: View, s: string)
    requires WellFormed(v)
    ensures |RenderLine(v, Border)| == LineSize(v) + 3
    ensures |s| <= LineSize(v) ==> |RenderLine(v, Banner(s))| == LineSize(v) + 3
  {
  }

  /** The row separator has the border's width. */
  lemma SeparatorWidth(v: View)
    requires WellFormed(v)
    ensures |RenderLine(v, RowSeparator)| == LineSize(v) + 3
  {
    var n, w, idx := |v.names|, v.cellWidth, IndexWidth(v.size);
    Distribute(n, w);
    var dashes := Times(DashCell(w), n);
    TimesLength(DashCell(w), n);
    assert |DashCell(w)| == w + 1;
    assert |dashes| == n * (w + 1);
    assert SeparatorText(v) == DashCell(idx) + dashes + "|\n";
  }

  /** So does the skip line, when a cell holds `...`. */
  lemma SkipWidth(v: View)
    requires WellFormed(v) && v.cellWidth >= 3
    ensures |RenderLine(v, Skip)| == LineSize(v) + 3
  {
    var n, w, idx := |v.names|, v.cellWidth, IndexWidth(v.size);
    Distribute(n, w);
    var skips := Times(Cell("...", w), n);
    TimesLength(Cell("...", w), n);
    assert |Cell("...", w)| == w + 1;
    assert |skips| == n * (w + 1);
    assert SkipText(v) == Cell("..", idx) + skips + "|\n";
  }

  /**
   * With no info columns, a header whose names fit their cells has the
   * border's width; each info column adds a cell, and the closing bar is
   * then missing.
   */
  lemma HeaderWidth(v: View)
    requires WellFormed(v)
    requires Fits(v.names, v.cellWidth) && Fits(v.infoNames, v.cellWidth)
    ensures |RenderLine(v, Header)| ==
      LineSize(v) + 3 + |v.infoNames| * (v.cellWidth + 1) - (if v.infoNames == [] then 0 else 1)
  {
    var n, w, idx := |v.names|, v.cellWidth, IndexWidth(v.size);
    var a, b := Cells(v.names, w), Cells(v.infoNames, w);
    CellsLength(v.names, w);
    CellsLength(v.infoNames, w);
    Distribute(n, w);
    assert |Cell("Id", idx)| == idx + 1;
    assert |a| == n * (w + 1);
    assert HeaderText(v) == Cell("Id", idx) + a + b + (if v.infoNames == [] then "|" else "") + "\n";
  }

  /**
   * Likewise for a row whose cell texts fit their cells: with no info
   * columns it has the border's width, and its number always fits the Id column.
   */
  lemma RowWidth(v: View, i: nat)
    requires WellFormed(v) && i < v.size
    requires Fits(RowTexts(v.shown, i), v.cellWidth) && Fits(RowTexts(v.info, i), v.cellWidth)
    requires |v.shown| == |v.names|
    ensures |RenderLine(v, Row(i))| ==
      LineSize(v) + 3 + |v.info| * (v.cellWidth + 1) - (if v.info == [] then 0 else 1)
  {
    RowLineText(v, i);
    RowTextLength(v, i);
    RowArithmetic(IndexWidth(v.size), |v.names|, v.cellWidth, |v.info|, v.info == [], |RowText(v, i)|, LineSize(v));
  }

  /** A row takes the Id cell, one cell per column and the line's end. */
  lemma RowTextLength(v: View, i: nat)
    requires WellFormed(v) && i < v.size
    requires Fits(RowTexts(v.shown, i), v.cellWidth) && Fits(RowTexts(v.info, i), v.cellWidth)
    ensures |RowText(v, i)| == (IndexWidth(v.size) + 1) + |v.shown| * (v.cellWidth + 1)
      + |v.info| * (v.cellWidth + 1) + (if v.info == [] then 1 else 0) + 1
  {
    var idx := IndexWidth(v.size);
    var a, b := Cell(NatText(i), idx), Cells(RowTexts(v.shown, i), v.cellWidth);
    var c, d := Cells(RowTexts(v.info, i), v.cellWidth), if v.info == [] then "|" else "";
    CellsLength(RowTexts(v.shown, i), v.cellWidth);
    CellsLength(RowTexts(v.info, i), v.cellWidth);
    IndexFits(v.size, i);
    assert |a| == idx + 1;
    assert |RowText(v, i)| == |a| + |b| + |c| + |d| + 1;
  }

  lemma RowArithmetic(idx: int, n: int, w: int, m: int, bar: bool, total: int, ls: int)
    requires total == (idx + 1) + n * (w + 1) + m * (w + 1) + (if bar then 1 else 0) + 1
    requires ls == w * n + idx + n
    ensures total == ls + 3 + m * (w + 1) - (if bar then 0 else 1)
  {
    Distribute(n, w);
  }
}
