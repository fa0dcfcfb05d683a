/**
 * The result table of a test run (class Tester::TableResults): named data
 * columns, the first of them golden, and named info columns, compared row by
 * row and reported as text. The text is built in the table's string stream
 * and then written to standard output; both are fields here (`text` and
 * `console`), so that every drawing step states exactly what it appends.
 */
module Tester {
  import opened Wrappers
  import opened Format
  import opened Columns
  import opened Statistics
  import opened Report

  /** What processAndShow writes to standard output before the report when it converts the table. */
  function ConversionNotice(cols: seq<Column>): string {
    if AllSameKind(cols) then ""
    else if AnyFloating(cols) then "\n* Table: all data types are converted to double! *\n"
    else "\n* Table: all data types are converted to int64! *\n"
  }

  /**
   * The checks processAndShow makes before it compares, in their order: a
   * golden column, a candidate, data columns of one length, info columns of
   * that length too.
   */
  function Validate(cols: seq<Column>, info: seq<Column>): (r: Outcome<string>)
    ensures r.Pass? <==>
      |cols| >= 2 && Rectangular(cols, Length(cols[0])) && Rectangular(info, Length(cols[0]))
  {
    if cols == [] then Fail("Table.processAndShow(): Empty columns data")
    else if |cols| == 1 then Fail("Table.processAndShow(): Only one data row")
    else if !Rectangular(cols, Length(cols[0])) then Fail("Table.show(): Vectors should have equal sizes!")
    else if !Rectangular(info, Length(cols[0])) then Fail("Table.show(): Additional Vectors should have equal sizes!")
    else Pass
  }

  /** A table processAndShow compares: one name per data column, and columns that pass its checks. */
  predicate Checked(v: View) {
    |v.names| == |v.shown| && Validate(v.shown, v.info).Pass? && v.size == Length(v.shown[0]) && v.size >= 1
  }

  /** The columns processAndShow compares: those of the table, unified to one element type. */
  lemma UnifiedComparable(v: View, digest: seq<Float> -> string)
    requires Checked(v)
    ensures Comparable(Unify(v.shown), v.size) && WellFormed(v)
    ensures Reportable(v, StatisticsOf(Unify(v.shown), v.size, digest))
  {
  }

  /**
   * The report processAndShow draws for a checked table: the columns are
   * shown as they were added and compared once unified.
   */
  function TableReport(v: View, digest: seq<Float> -> string): string
    requires Checked(v)
  {
    UnifiedComparable(v, digest);
    ReportText(v, StatisticsOf(Unify(v.shown), v.size, digest))
  }

  /** What a table that fails its comparison writes after its report. */
  function Trailer(v: View): string
    requires Checked(v)
  {
    UnifiedComparable(v, x => "");
    if FirstMismatch(Unify(v.shown), v.size).Some? then "\n" else ""
  }

  /** The report and trailer of a checked table are those of its statistics. */
  lemma ShownReport(v: View, st: TestStatistic, digest: seq<Float> -> string)
    requires Checked(v) && Comparable(Unify(v.shown), v.size) && st == StatisticsOf(Unify(v.shown), v.size, digest)
    ensures WellFormed(v) && Reportable(v, st)
    ensures TableReport(v, digest) == ReportText(v, st)
    ensures Trailer(v) == if st.firstWrongIndex.Some? then "\n" else ""
  {
    UnifiedComparable(v, digest);
  }

  /**
   * processAndShow as written on a table whose stream still holds the text
   * of an earlier report: that text is written out again, before the new
   * report, so the output is not the report alone.
   */
  lemma EarlierReportRepeated(v: View, digest: seq<Float> -> string, earlier: string, notice: string)
    requires Checked(v) && earlier != ""
    ensures var written := notice + (earlier + TableReport(v, digest)) + Trailer(v);
      written[|notice|..|notice| + |earlier|] == earlier
      && written != notice + TableReport(v, digest) + Trailer(v)
  {
    var report, trailer := TableReport(v, digest), Trailer(v);
    var written := notice + (earlier + report) + trailer;
    assert written[|notice|..|notice| + |earlier|] == earlier;
    assert |written| > |notice + report + trailer|;
  }

  class TableResults {
    const tableName: string
    const cellWidth: UInt32
    const packetSize: UInt32
    const tableHeight: UInt32
    /** The MD5 fingerprint of a vector of doubles, as the hash library computes it. */
    const digest: seq<Float> -> string

    var columnsNames: seq<string>
    var infoColumnsNames: seq<string>
    var columnsData: seq<Column>
    var infoColumnsData: seq<Column>
    /** The data columns as added, kept while a converted copy is compared. */
    var columnsDataUnconverted: seq<Column>
    /** The contents of the string stream the report is drawn into. */
    var text: string
    /** What the table has written to standard output. */
    var console: string

    /** Names and columns come in pairs, and no name or column is empty. */
    ghost predicate Valid()
      reads this`columnsNames, this`infoColumnsNames, this`columnsData, this`infoColumnsData
    {
      |columnsNames| == |columnsData| && |infoColumnsNames| == |infoColumnsData|
      && (forall k :: 0 <= k < |columnsNames| ==> columnsNames[k] != "")
      && (forall k :: 0 <= k < |infoColumnsNames| ==> infoColumnsNames[k] != "")
      && (forall c :: 0 <= c < |columnsData| ==> Length(columnsData[c]) >= 1)
      && (forall c :: 0 <= c < |infoColumnsData| ==> Length(infoColumnsData[c]) >= 1)
    }

    /** What show draws from: the unconverted columns when there are any, else the compared ones. */
    function ViewOf(size: nat): View
      reads this`columnsNames, this`infoColumnsNames, this`columnsData, this`infoColumnsData
      reads this`columnsDataUnconverted
    {
      View(tableName, cellWidth, packetSize, tableHeight, columnsNames, infoColumnsNames,
           if columnsDataUnconverted != [] then columnsDataUnconverted else columnsData,
           infoColumnsData, size)
    }

    /** The table with data columns `cols` and `size` rows. */
    function TableView(cols: seq<Column>, size: nat): View
      reads this`columnsNames, this`infoColumnsNames, this`infoColumnsData
    {
      View(tableName, cellWidth, packetSize, tableHeight, columnsNames, infoColumnsNames, cols, infoColumnsData, size)
    }

    constructor (tableName: string, digest: seq<Float> -> string,
                 cellWidth: UInt32 := 14, packetSize: UInt32 := 0, tableHeight: UInt32 := 12)
      ensures Valid()
      ensures this.tableName == tableName && this.digest == digest
      ensures this.cellWidth == cellWidth && this.packetSize == packetSize && this.tableHeight == tableHeight
      ensures columnsNames == [] && infoColumnsNames == [] && columnsData == [] && infoColumnsData == []
      ensures columnsDataUnconverted == [] && text == "" && console == ""
    {
      this.tableName := tableName;
      this.digest := digest;
      this.cellWidth := cellWidth;
      this.packetSize := packetSize;
      this.tableHeight := tableHeight;
      columnsNames, infoColumnsNames := [], [];
      columnsData, infoColumnsData, columnsDataUnconverted := [], [], [];
      text, console := "", "";
    }

    /** Appends a data column, refusing an empty name or an empty column. */
    method AddDataColumn(name: string, data: Column) returns (r: Outcome<string>)
      requires Valid()
      modifies this`columnsNames, this`columnsData
      ensures Valid()
      ensures r.Fail? <==> name == "" || Length(data) == 0
      ensures r.Fail? ==> (r.error == "addDataColumn: Empty arguments"
        && columnsNames == old(columnsNames) && columnsData == old(columnsData))
      ensures r.Pass? ==> columnsNames == old(columnsNames) + [name] && columnsData == old(columnsData) + [data]
    {
      if name == "" || Length(data) == 0 {
        return Fail("addDataColumn: Empty arguments");
      }
      columnsNames := columnsNames + [name];
      columnsData := columnsData + [data];
      r := Pass;
    }

    /** Appends an info column, shown beside the data but never compared. */
    method AddAdditionalInfoColumn(name: string, data: Column) returns (r: Outcome<string>)
      requires Valid()
      modifies this`infoColumnsNames, this`infoColumnsData
      ensures Valid()
      ensures r.Fail? <==> name == "" || Length(data) == 0
      ensures r.Fail? ==> (r.error == "addAdditionalInfoColumn: Empty arguments"
        && infoColumnsNames == old(infoColumnsNames) && infoColumnsData == old(infoColumnsData))
      ensures r.Pass? ==> (infoColumnsNames == old(infoColumnsNames) + [name]
        && infoColumnsData == old(infoColumnsData) + [data])
    {
      if name == "" || Length(data) == 0 {
        return Fail("addAdditionalInfoColumn: Empty arguments");
      }
      infoColumnsNames := infoColumnsNames + [name];
      infoColumnsData := infoColumnsData + [data];
      r := Pass;
    }

    /**
     * Scans the rows in order, comparing every data column with column 0,
     * and stops after the first row where one disagrees: the result is the
     * least disagreeing row, or none.
     */
    method FindFirstMismatch(dataSize: nat) returns (r: Option<nat>)
      requires Comparable(columnsData, dataSize)
      ensures r == FirstMismatch(columnsData, dataSize)
    {
      r := None;
      var i := 0;
      while i < dataSize && r.None?
        invariant i <= dataSize
        invariant r.None? ==> forall j :: 0 <= j < i ==> !RowDisagrees(columnsData, dataSize, j)
        invariant r.Some? ==> (1 <= i && r.value == i - 1 && RowDisagrees(columnsData, dataSize, i - 1)
          && forall j :: 0 <= j < i - 1 ==> !RowDisagrees(columnsData, dataSize, j))
      {
        var c := 0;
        while c < |columnsData|
          invariant c <= |columnsData|
          invariant r.None? || r == Some(i)
          invariant r.Some? <==> exists k :: 0 <= k < c && Disagree(columnsData[0], columnsData[k], i)
        {
          if Disagree(columnsData[0], columnsData[c], i) {
            r := Some(i);
          }
          c := c + 1;
        }
        i := i + 1;
      }
      var first := FirstMismatch(columnsData, dataSize);
      if r.Some? && first.Some? {
        assert !(first.value < r.value) && !(r.value < first.value);
      }
    }

    /** The fingerprint of column 0 followed by column `index`, both copied to doubles. */
    method GetHash(index: nat) returns (h: string)
      requires 1 <= index < |columnsData|
      ensures h == digest(HashInput(columnsData[0], columnsData[index]))
    {
      var data := ToDoubles(columnsData[0]) + ToDoubles(columnsData[index]);
      h := digest(data);
    }

    /** The number of rows at which candidate `columnId` disagrees with column 0. */
    method CountMismatches(columnId: nat, dataSize: nat) returns (count: nat)
      requires Comparable(columnsData, dataSize) && 1 <= columnId < |columnsData|
      ensures count == MismatchCount(columnsData[0], columnsData[columnId], dataSize)
    {
      var golden, col := columnsData[0], columnsData[columnId];
      count := 0;
      var i := 0;
      while i < dataSize
        invariant i <= dataSize
        invariant count == MismatchCount(golden, col, i)
      {
        if Disagree(golden, col, i) {
          count := count + 1;
        }
        i := i + 1;
      }
    }

    /**
     * The statistics of a comparable table: the first mismatch, and for
     * every candidate in order its mismatch count, match percent and, when
     * it mismatches, its fingerprint.
     */
    method GetStatistics(dataSize: nat) returns (st: TestStatistic)
      requires Comparable(columnsData, dataSize) && dataSize >= 1
      ensures st == StatisticsOf(columnsData, dataSize, digest)
    {
      var first := FindFirstMismatch(dataSize);
      ghost var all := StatisticsOf(columnsData, dataSize, digest).diffs;
      var diffs: seq<Difference> := [];
      var columnId := 1;
      while columnId < |columnsData|
        invariant 1 <= columnId <= |columnsData|
        invariant diffs == all[..columnId - 1]
      {
        var count := CountMismatches(columnId, dataSize);
        var hash := None;
        if count != 0 {
          var h := GetHash(columnId);
          hash := Some(h);
        }
        var diff := Difference(count, MatchPercent(count, dataSize), hash);
        DifferenceFrom(columnsData[0], columnsData[columnId], dataSize, digest, count, hash);
        assert diff == all[columnId - 1];
        PrefixStep(all, columnId - 1);
        diffs := diffs + [diff];
        columnId := columnId + 1;
      }
      st := TestStatistic(first, diffs);
      assert diffs == all;
    }

    /** Converts every data column, in place, to the target element type. */
    method ChangeVectorsType(target: Target)
      requires target == ToInt64 ==> !AnyFloating(columnsData)
      modifies this`columnsData
      ensures |columnsData| == |old(columnsData)|
      ensures forall c :: 0 <= c < |columnsData| ==> columnsData[c] == ConvertColumn(old(columnsData)[c], target)
    {
      var c := 0;
      while c < |columnsData|
        invariant c <= |columnsData| == |old(columnsData)|
        invariant forall k :: 0 <= k < c ==> columnsData[k] == ConvertColumn(old(columnsData)[k], target)
        invariant forall k :: c <= k < |columnsData| ==> columnsData[k] == old(columnsData)[k]
      {
        columnsData := columnsData[c := ConvertColumn(columnsData[c], target)];
        c := c + 1;
      }
    }

    /** A dashed cell for the Id column, one per data column, and the closing bar. */
    method DrawRowLine(indexSpaceWidth: nat)
      modifies this`text
      ensures text == old(text) + (DashCell(indexSpaceWidth) + Times(DashCell(cellWidth), |columnsNames|) + "|\n")
    {
      text := text + DashCell(indexSpaceWidth);
      var k := 0;
      while k < |columnsNames|
        invariant k <= |columnsNames|
        invariant text == old(text) + DashCell(indexSpaceWidth) + Times(DashCell(cellWidth), k)
      {
        text := text + DashCell(cellWidth);
        k := k + 1;
      }
      text := text + "|\n";
      Concat3(old(text), DashCell(indexSpaceWidth), Times(DashCell(cellWidth), |columnsNames|), "|\n");
    }

    /** `..` under Id, `...` under every data column, and the closing bar. */
    method DrawSkipLine(indexSpaceWidth: nat)
      modifies this`text
      ensures text == old(text) + (Cell("..", indexSpaceWidth) + Times(Cell("...", cellWidth), |columnsNames|) + "|\n")
    {
      text := text + Cell("..", indexSpaceWidth);
      var k := 0;
      while k < |columnsNames|
        invariant k <= |columnsNames|
        invariant text == old(text) + Cell("..", indexSpaceWidth) + Times(Cell("...", cellWidth), k)
      {
        text := text + Cell("...", cellWidth);
        k := k + 1;
      }
      text := text + "|\n";
      Concat3(old(text), Cell("..", indexSpaceWidth), Times(Cell("...", cellWidth), |columnsNames|), "|\n");
    }

    /** A rule across all cells, the Id column and their bars. */
    method DrawLine(indexSpaceWidth: nat)
      modifies this`text
      ensures text == old(text) + RuleText(cellWidth * |columnsNames| + |columnsNames| + indexSpaceWidth)
    {
      text := text + "|" + Centered("", cellWidth * |columnsNames| + |columnsNames| + indexSpaceWidth, '-') + "|\n";
    }

    /** `str` centred between two bars in a field of `lineSize`. */
    method DrawTextLine(str: string, lineSize: nat)
      modifies this`text
      ensures text == old(text) + BannerText(str, lineSize)
    {
      text := text + "|" + Centered(str, lineSize, ' ') + "|\n";
    }

    /** `str` left aligned between two bars in a field of `lineSize`. */
    method DrawTextLineLeft(str: string, lineSize: nat)
      modifies this`text
      ensures text == old(text) + LeftText(str, lineSize)
    {
      text := text + "|" + LeftAligned(str, lineSize) + "|\n";
    }

    /** The cells of row `i` of the given columns, in column order. */
    method DrawNextData(data: seq<Column>, i: nat)
      requires forall c :: 0 <= c < |data| ==> i < Length(data[c])
      modifies this`text
      ensures text == old(text) + Cells(RowTexts(data, i), cellWidth)
    {
      ghost var texts := RowTexts(data, i);
      ghost var start := text;
      var c := 0;
      while c < |data|
        invariant c <= |data|
        invariant text == start + Cells(texts[..c], cellWidth)
      {
        ghost var before := text;
        var s := ValueText(data[c], i);
        assert s == texts[c];
        text := text + "|";
        text := text + Centered(s, cellWidth, ' ');
        Associative(before, "|", Centered(s, cellWidth, ' '));
        CellsStep(texts, c, cellWidth);
        Associative(start, Cells(texts[..c], cellWidth), Cell(s, cellWidth));
        c := c + 1;
      }
      assert texts[..|data|] == texts;
    }

    /**
     * Draws the report of a table of `dataSize` rows with statistics
     * `stats` into the stream, line by line, and writes the whole stream to
     * standard output (followed by a newline for a failing table).
     */
    method Show(dataSize: nat, stats: TestStatistic)
      requires WellFormed(ViewOf(dataSize)) && Reportable(ViewOf(dataSize), stats)
      modifies this`text, this`console
      ensures text == old(text) + ReportText(old(ViewOf(dataSize)), stats)
      ensures console == old(console) + text + (if stats.firstWrongIndex.Some? then "\n" else "")
    {
      ghost var v := ViewOf(dataSize);
      ghost var t0 := text;
      var indexSpaceWidth := IndexWidth(dataSize);
      var lineSize := cellWidth * |columnsNames| + indexSpaceWidth + |columnsNames|;
      assert lineSize == LineSize(v);
      DrawLine(indexSpaceWidth);
      SameRule(cellWidth * |columnsNames| + |columnsNames| + indexSpaceWidth, lineSize);
      ghost var t1 := text;

      if stats.firstWrongIndex.None? {
        DrawTextLine(tableName + ": PASS", lineSize);
        ghost var t2 := text;
        DrawLine(indexSpaceWidth);
        PassAssembly(v, stats, t0, t1, t2, text);
        console := console + text;
        return;
      }

      var f := stats.firstWrongIndex.value;
      DrawHead(dataSize);
      ghost var t2 := text;
      var maxSize := Max(tableHeight, 1);
      if f != 0 {
        maxSize := maxSize + f;
        DrawSkipLine(indexSpaceWidth);
        SkipParts(v, indexSpaceWidth);
      } else {
        EmptyRight(t2);
      }
      ghost var t3 := text;
      DrawWindow(dataSize, f, maxSize);
      ghost var t4 := text;
      DrawClosing(dataSize, stats);
      FailAssembly(v, stats, f, t0, t1, t2, t3, t4, text);
      console := console + text + "\n";
    }

    /** What follows the first rule of a failing report: `TEST: <name>`, a rule, the header and a separator. */
    method DrawHead(dataSize: nat)
      requires WellFormed(ViewOf(dataSize))
      modifies this`text
      ensures text == old(text) + HeadRest(old(ViewOf(dataSize)))
    {
      ghost var v := ViewOf(dataSize);
      var indexSpaceWidth := IndexWidth(dataSize);
      var lineSize := cellWidth * |columnsNames| + indexSpaceWidth + |columnsNames|;
      HeadRestParts(v, indexSpaceWidth, lineSize);
      ghost var t0 := text;
      DrawTextLine("TEST: " + tableName, lineSize);
      ghost var t1 := text;
      DrawLine(indexSpaceWidth);
      SameRule(cellWidth * |columnsNames| + |columnsNames| + indexSpaceWidth, lineSize);
      ghost var t2 := text;
      DrawHeader(indexSpaceWidth);
      assert columnsNames == v.names && infoColumnsNames == v.infoNames;
      ghost var t3, header := text, Cell("Id", indexSpaceWidth) + Cells(columnsNames, cellWidth)
        + Cells(infoColumnsNames, cellWidth) + (if infoColumnsNames == [] then "|" else "") + "\n";
      DrawRowLine(indexSpaceWidth);
      assert columnsNames == v.names;
      ghost var separator := DashCell(indexSpaceWidth) + Times(DashCell(cellWidth), |columnsNames|) + "|\n";
      Chain4(t0, t1, t2, t3, text, BannerText("TEST: " + tableName, lineSize), RuleText(lineSize), header, separator);
    }

    /** The rows from the first mismatch `f` on, while they are below both `dataSize` and `maxSize`. */
    method DrawWindow(dataSize: nat, f: nat, maxSize: nat)
      requires WellFormed(ViewOf(dataSize)) && f < dataSize && maxSize == f + Height(ViewOf(dataSize))
      modifies this`text
      ensures Printable(old(ViewOf(dataSize)), WindowRows(old(ViewOf(dataSize)), f))
      ensures text == old(text) + Render(old(ViewOf(dataSize)), WindowRows(old(ViewOf(dataSize)), f))
    {
      ghost var v := ViewOf(dataSize);
      ghost var start := text;
      EmptyRight(start);
      var i := f;
      while i < dataSize && i < maxSize
        invariant f <= i <= WindowEnd(v, f)
        invariant Printable(v, RowsUpTo(v, f, i, maxSize)) && text == start + Render(v, RowsUpTo(v, f, i, maxSize))
      {
        ghost var t, j := text, i;
        DrawRowBlock(dataSize, i, maxSize);
        i := i + 1;
        RowsAdvance(v, f, j, i, maxSize, start, t, text);
      }
      WindowDone(v, f, i, maxSize, start, text);
    }

    /** One pass of the row loop: row `i`, the skip line after the window's last row, the separator closing a packet. */
    method DrawRowBlock(dataSize: nat, i: nat, maxSize: nat)
      requires WellFormed(ViewOf(dataSize)) && i < dataSize
      modifies this`text
      ensures Printable(old(ViewOf(dataSize)), RowBlock(old(ViewOf(dataSize)), i, maxSize))
      ensures text == old(text) + Render(old(ViewOf(dataSize)), RowBlock(old(ViewOf(dataSize)), i, maxSize))
    {
      ghost var v := ViewOf(dataSize);
      var indexSpaceWidth := IndexWidth(dataSize);
      SkipParts(v, indexSpaceWidth);
      SeparatorParts(v, indexSpaceWidth);
      ghost var t0 := text;
      DrawRow(dataSize, i);
      ghost var t1 := text;
      if i == maxSize - 1 && i < dataSize {
        DrawSkipLine(indexSpaceWidth);
        assert columnsNames == v.names;
      } else {
        EmptyRight(t1);
      }
      ghost var t2 := text;
      if packetSize != 0 && (i + 1) % packetSize == 0 && i + 1 != dataSize {
        DrawRowLine(indexSpaceWidth);
        assert columnsNames == v.names;
      } else {
        EmptyRight(t2);
      }
      BlockText(v, i, maxSize);
      Chain3(t0, t1, t2, text, RowText(v, i), if i + 1 == maxSize then SkipText(v) else "",
             if Separates(v, i) then SeparatorText(v) else "");
    }

    /**
     * The last lines of a failing report: a rule, the DIFF banners, a rule,
     * an empty line, then the detail blocks between two rules.
     */
    method DrawClosing(dataSize: nat, stats: TestStatistic)
      requires WellFormed(ViewOf(dataSize)) && Covers(ViewOf(dataSize), stats)
      modifies this`text
      ensures Printable(old(ViewOf(dataSize)), ClosingLines(old(ViewOf(dataSize)), stats))
      ensures text == old(text) + Render(old(ViewOf(dataSize)), ClosingLines(old(ViewOf(dataSize)), stats))
    {
      ghost var v := ViewOf(dataSize);
      var indexSpaceWidth := IndexWidth(dataSize);
      var lineSize := cellWidth * |columnsNames| + indexSpaceWidth + |columnsNames|;
      assert lineSize == LineSize(v);
      ghost var t0 := text;
      DrawLine(indexSpaceWidth);
      SameRule(cellWidth * |columnsNames| + |columnsNames| + indexSpaceWidth, lineSize);
      DrawTextLine(tableName + ": DIFF", lineSize);
      DrawTextLine("Blobs are NOT equal!", lineSize);
      DrawLine(indexSpaceWidth);
      text := text + "\n";
      text := text + RuleText(DetailWidth);
      Concat6(t0, RuleText(lineSize), BannerText(tableName + ": DIFF", lineSize),
              BannerText("Blobs are NOT equal!", lineSize), RuleText(lineSize), "\n", RuleText(DetailWidth));
      ghost var t1 := text;
      DrawDetails(dataSize, stats);
      ghost var details := Render(v, DetailsUpTo(v, stats, |v.names|));
      text := text + RuleText(DetailWidth);
      ClosingText(v, stats);
      Concat3(t0, TailText(v), details, RuleText(DetailWidth));
    }

    /** The detail blocks of the candidates, in column order, separated by empty lines. */
    method DrawDetails(dataSize: nat, stats: TestStatistic)
      requires WellFormed(ViewOf(dataSize)) && Covers(ViewOf(dataSize), stats)
      modifies this`text
      ensures DetailsDrawn(old(ViewOf(dataSize)), stats, |columnsNames|, old(text), text)
    {
      ghost var v := ViewOf(dataSize);
      ghost var start := text;
      EmptyRight(start);
      var c := 1;
      while c < |columnsNames|
        invariant 1 <= c && (c <= |columnsNames| || (|columnsNames| == 0 && c == 1))
        invariant DetailsDrawn(v, stats, c, start, text)
      {
        ghost var t, d := text, c;
        DrawDetail(dataSize, stats, c);
        ghost var mid := text;
        if c + 1 == |columnsNames| {
          c := c + 1;
          DetailsAdvance(v, stats, d, c, start, t, mid, text);
          break;
        }
        DrawTextLine("", DetailWidth);
        c := c + 1;
        DetailsAdvance(v, stats, d, c, start, t, mid, text);
      }
    }

    /** The header line: `Id`, the data column names, the info column names, each centred. */
    method DrawHeader(indexSpaceWidth: nat)
      modifies this`text
      ensures text == old(text) + (Cell("Id", indexSpaceWidth) + Cells(columnsNames, cellWidth)
        + Cells(infoColumnsNames, cellWidth) + (if infoColumnsNames == [] then "|" else "") + "\n")
    {
      text := text + Cell("Id", indexSpaceWidth);
      DrawNames(columnsNames);
      DrawNames(infoColumnsNames);
      ghost var t := text;
      if infoColumnsNames == [] {
        text := text + "|";
      } else {
        EmptyRight(t);
      }
      text := text + "\n";
      Concat5(old(text), Cell("Id", indexSpaceWidth), Cells(columnsNames, cellWidth), Cells(infoColumnsNames, cellWidth),
              if infoColumnsNames == [] then "|" else "", "\n");
    }

    /** One centred cell per name. */
    method DrawNames(names: seq<string>)
      modifies this`text
      ensures text == old(text) + Cells(names, cellWidth)
    {
      ghost var start := text;
      var k := 0;
      while k < |names|
        invariant k <= |names|
        invariant text == start + Cells(names[..k], cellWidth)
      {
        CellsStep(names, k, cellWidth);
        Associative(start, Cells(names[..k], cellWidth), Cell(names[k], cellWidth));
        text := text + Cell(names[k], cellWidth);
        k := k + 1;
      }
      assert names[..k] == names;
    }

    /** Row `i`: its number, the shown data cells, the info cells. */
    method DrawRow(dataSize: nat, i: nat)
      requires WellFormed(ViewOf(dataSize)) && i < dataSize
      modifies this`text
      ensures text == old(text) + RowText(old(ViewOf(dataSize)), i)
    {
      ghost var v := ViewOf(dataSize);
      text := text + Cell(NatText(i), IndexWidth(dataSize));
      if columnsDataUnconverted != [] {
        DrawNextData(columnsDataUnconverted, i);
      } else {
        DrawNextData(columnsData, i);
      }
      DrawNextData(infoColumnsData, i);
      ghost var t := text;
      if infoColumnsData == [] {
        text := text + "|";
      } else {
        EmptyRight(t);
      }
      text := text + "\n";
      Concat5(old(text), Cell(NatText(i), IndexWidth(dataSize)), Cells(RowTexts(v.shown, i), cellWidth),
              Cells(RowTexts(infoColumnsData, i), cellWidth), if infoColumnsData == [] then "|" else "", "\n");
    }

    /** The six lines describing candidate `c` in the detail section. */
    method DrawDetail(dataSize: nat, stats: TestStatistic, c: nat)
      requires WellFormed(ViewOf(dataSize)) && 1 <= c < |columnsNames| && Covers(ViewOf(dataSize), stats)
      modifies this`text
      ensures Printable(old(ViewOf(dataSize)), DetailEntries(old(ViewOf(dataSize)), stats, c))
      ensures text == old(text) + Render(old(ViewOf(dataSize)), DetailEntries(old(ViewOf(dataSize)), stats, c))
    {
      var d := stats.diffs[c - 1];
      var caption := GoldenCaption(columnsNames[0], columnsNames[c]);
      ghost var start := text;
      DrawTextLine(caption, DetailWidth);
      DrawTextLine("", DetailWidth);
      DrawTextLineLeft(HashEntry(d.diffHash), DetailWidth);
      DrawTextLineLeft(SizeEntry(dataSize), DetailWidth);
      DrawTextLineLeft(CountEntry(d.mismatchCount), DetailWidth);
      DrawTextLineLeft(MatchEntry(d.matchPercent), DetailWidth);
      Concat6(start, BannerText(caption, DetailWidth), BannerText("", DetailWidth),
              LeftText(HashEntry(d.diffHash), DetailWidth), LeftText(SizeEntry(dataSize), DetailWidth),
              LeftText(CountEntry(d.mismatchCount), DetailWidth), LeftText(MatchEntry(d.matchPercent), DetailWidth));
      RenderDetail(ViewOf(dataSize), stats, c);
    }

    /**
     * Forgets the unconverted columns. The stream is only cleared of its
     * error flags (std::stringstream::clear), so the text of earlier reports
     * stays in it.
     */
    method Reset()
      modifies this`columnsDataUnconverted
      ensures columnsDataUnconverted == [] && text == old(text)
    {
      columnsDataUnconverted := [];
    }

    /** Forgets the unconverted columns and empties the string stream. */
    method ResetFresh()
      modifies this`text, this`columnsDataUnconverted
      ensures text == "" && columnsDataUnconverted == []
    {
      text := "";
      columnsDataUnconverted := [];
    }

    /**
     * Checks the table, compares it and shows the report. Fewer than two
     * data columns are refused before anything changes; columns of
     * different lengths are refused after the reset. A table whose columns
     * share one element type is compared as it is; otherwise every column is
     * converted to `double` when one holds floating-point values and to
     * `int64_t` when none does, a notice says so, and the report still shows
     * the columns as they were added. The stream keeps the text of earlier
     * reports, and all of it is written out.
     */
    method ProcessAndShow() returns (r: Outcome<string>)
      requires Valid()
      modifies this`columnsData, this`columnsDataUnconverted, this`text, this`console
      ensures Valid()
      ensures r == Validate(old(columnsData), old(infoColumnsData))
      ensures |old(columnsData)| < 2 ==> columnsDataUnconverted == old(columnsDataUnconverted)
      ensures |old(columnsData)| >= 2 ==> columnsDataUnconverted == (if r.Pass? && !AllSameKind(old(columnsData)) then old(columnsData) else [])
      ensures r.Fail? ==> columnsData == old(columnsData) && text == old(text) && console == old(console)
      ensures r.Pass? ==> Checked(TableView(old(columnsData), Length(old(columnsData)[0])))
      ensures r.Pass? ==> columnsData == Unify(old(columnsData))
      ensures r.Pass? ==> var v := TableView(old(columnsData), Length(old(columnsData)[0]));
        text == old(text) + TableReport(v, digest)
        && console == old(console) + ConversionNotice(old(columnsData)) + text + Trailer(v)
    {
      if |columnsData| == 0 {
        return Fail("Table.processAndShow(): Empty columns data");
      }
      if |columnsData| == 1 {
        return Fail("Table.processAndShow(): Only one data row");
      }
      Reset();
      var dataSize := Length(columnsData[0]);
      if !Rectangular(columnsData, dataSize) {
        return Fail("Table.show(): Vectors should have equal sizes!");
      }
      if !Rectangular(infoColumnsData, dataSize) {
        return Fail("Table.show(): Additional Vectors should have equal sizes!");
      }
      CompareAndShow(dataSize);
      r := Pass;
    }

    /** The comparison of a checked table: conversion when the element types differ, statistics, report. */
    method CompareAndShow(dataSize: nat)
      requires Valid() && columnsDataUnconverted == [] && Checked(TableView(columnsData, dataSize))
      modifies this`columnsData, this`columnsDataUnconverted, this`text, this`console
      ensures Valid() && columnsData == Unify(old(columnsData))
      ensures columnsDataUnconverted == if AllSameKind(old(columnsData)) then [] else old(columnsData)
      ensures var v := TableView(old(columnsData), dataSize);
        text == old(text) + TableReport(v, digest)
        && console == old(console) + ConversionNotice(old(columnsData)) + text + Trailer(v)
    {
      ghost var v := TableView(columnsData, dataSize);
      UnifiedComparable(v, digest);
      ConvertTable();
      assert ViewOf(dataSize) == v;
      var stats := GetStatistics(dataSize);
      ShownReport(v, stats, digest);
      Show(dataSize, stats);
    }

    /**
     * A table whose columns share one element type is left as it is.
     * Otherwise the columns as added are kept, and every column is converted
     * to `double` when one holds floating-point values and to `int64_t` when
     * none does, with a notice on standard output.
     */
    method ConvertTable()
      requires Valid()
      modifies this`columnsData, this`columnsDataUnconverted, this`console
      ensures Valid()
      ensures columnsData == Unify(old(columnsData))
      ensures columnsDataUnconverted == if AllSameKind(old(columnsData)) then old(columnsDataUnconverted) else old(columnsData)
      ensures console == old(console) + ConversionNotice(old(columnsData))
    {
      if AllSameKind(columnsData) {
        EmptyRight(console);
        return;
      }
      columnsDataUnconverted := columnsData;
      if AnyFloating(columnsData) {
        ChangeVectorsType(ToDouble);
        console := console + "\n* Table: all data types are converted to double! *\n";
      } else {
        ChangeVectorsType(ToInt64);
        console := console + "\n* Table: all data types are converted to int64! *\n";
      }
    }

    /**
     * processAndShow with a stream that is emptied by the reset, so that a
     * report holds only the current table.
     */
    method ProcessAndShowFresh() returns (r: Outcome<string>)
      requires Valid()
      modifies this`columnsData, this`columnsDataUnconverted, this`text, this`console
      ensures Valid()
      ensures r == Validate(old(columnsData), old(infoColumnsData))
      ensures r.Fail? ==> columnsData == old(columnsData) && console == old(console)
      ensures r.Pass? ==> Checked(TableView(old(columnsData), Length(old(columnsData)[0])))
      ensures r.Pass? ==> columnsData == Unify(old(columnsData))
      ensures r.Pass? ==> var v := TableView(old(columnsData), Length(old(columnsData)[0]));
        text == TableReport(v, digest)
        && console == old(console) + ConversionNotice(old(columnsData)) + TableReport(v, digest) + Trailer(v)
    {
      if |columnsData| >= 2 {
        ResetFresh();
      }
      r := ProcessAndShow();
    }

    /** Removes every column and resets. */
    method Clear()
      modifies this`columnsNames, this`infoColumnsNames, this`columnsData, this`infoColumnsData
      modifies this`columnsDataUnconverted
      ensures Valid()
      ensures columnsNames == [] && infoColumnsNames == [] && columnsData == [] && infoColumnsData == []
      ensures columnsDataUnconverted == [] && text == old(text)
    {
      columnsNames, infoColumnsNames := [], [];
      columnsData, infoColumnsData := [], [];
      Reset();
    }
  }
}
