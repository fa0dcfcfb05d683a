# Result-table comparator of the OpenCL kernel tester

The tester runs OpenCL programs and compares what they produce with golden
data. Its core is `Tester::TableResults`. A table holds one golden data
column and one or more candidate columns. It may also hold info columns,
which are printed but never compared. `processAndShow` checks the columns,
converts them to one element type when they differ, finds the first row
where a candidate disagrees with the golden column, and computes per-candidate
statistics: mismatch count, match percentage and a hash of the two columns.
It then writes a text report: a `PASS` box, or a window of rows starting at
the first mismatch followed by one detail block per candidate.

The model is split into these modules:

- `Wrappers`: `Option`, `Result` and `Outcome` (pass, or fail with a message).
  A thrown `std::runtime_error` becomes a `Fail`/`Failure` carrying the message.
- `Format`: the `std::format` specifications the report uses. That means
  centring (`{:^w}`, with the extra fill after the text), left alignment
  (`{:<w}`), decimal integers (`{}`) and fixed-point reals (`{:.4f}`, `{:.2f}`).
- `Columns`: the column variant (`int64`, `double`, `uint32`, `float`), the
  floating values (finite, infinite, NaN), the epsilon comparison and the
  conversion of a whole table to one type.
- `Statistics`: the first mismatching row, the mismatch count, the match
  percentage and the statistics record.
- `Report`: the report as a sequence of lines, and the rendering of each line
  to text.
- `Tester`: the class `TableResults`. Its fields are the names, the data,
  the unconverted copy, the string stream (`text`) and standard output
  (`console`). Its methods update those fields the way the C++ methods do.
- `TestVector`: the rules by which a test folder is read. These are the blob
  type names, the element size, the number of `.json`/`.cl` files, the
  `Disasm` vendor and the equal-size rule for expected outputs.
- `Application`: the expected vertex and index buffers, and the vendor taken
  from the OpenCL platform's vendor string.

The hash algorithm (MD5 over the bytes of the two columns read as doubles) is
a parameter, `digest`, of the table. The model states which values are hashed
and when, not what the digest is.

## Model

| member | source | states |
|---|---|---|
| Tester.TableResults.constructor | Tester/sources/TableResults.cpp:166-169 | a new table has the given name, digest and layout (defaults 14, 0 and 12 in TableResults.hpp:14-16), no columns and an empty stream |
| Tester.TableResults.AddDataColumn | Tester/includes/TableResults.hpp:45-52 | fails with "addDataColumn: Empty arguments" exactly when the name or the data is empty; otherwise appends the name and the column and changes nothing else |
| Tester.TableResults.AddAdditionalInfoColumn | Tester/includes/TableResults.hpp:54-61 | the same for info columns, with their own message |
| Tester.Validate | Tester/sources/TableResults.cpp:171-185 | passes exactly when there are at least two data columns, every data column has the length of the first and every info column does too; each failure carries its own message, in check order |
| Tester.TableResults.ProcessAndShow | Tester/sources/TableResults.cpp:171-214 | result is Validate of the old columns; on failure nothing visible changes; on success the columns are the unified columns, the unconverted copy is the old columns exactly when their types differed, the stream gains the report of the table, and standard output gains the conversion notice, the whole stream and a trailing newline when a row mismatched |
| Tester.TableResults.ConvertTable | Tester/sources/TableResults.cpp:186-212 | leaves a table of one type alone; otherwise keeps the unconverted copy, converts to double when a floating column is present and to int64 otherwise, and prints the matching notice |
| Tester.TableResults.CompareAndShow | Tester/sources/TableResults.cpp:186-213 | for a checked table: the columns become the unified columns and the stream gains the report of the statistics of the unified columns |
| Tester.UnifiedComparable | Tester/sources/TableResults.cpp:176-213 | a table that passes the checks stays comparable after unification, and its statistics can be reported (the first mismatch is a row of the table, and there is one difference per candidate) |
| Tester.ShownReport | Tester/sources/TableResults.cpp:87-165 | what processAndShow writes is the report text of the statistics of the unified columns, with a trailing newline exactly when some row mismatched |
| Tester.TableResults.ChangeVectorsType | Tester/sources/TableResults.cpp:12-19 | every column is replaced by its conversion to the target type, and the number of columns is kept |
| Tester.TableResults.FindFirstMismatch | Tester/sources/TableResults.cpp:216-236 | returns the first row where some column disagrees with column 0, or none when no row does |
| Tester.TableResults.CountMismatches | Tester/sources/TableResults.cpp:57-79 | counts the rows where the candidate disagrees with the golden column |
| Tester.TableResults.GetHash | Tester/sources/TableResults.cpp:38-52 | is the digest of the golden column followed by the candidate column, both read as doubles |
| Tester.TableResults.GetStatistics | Tester/sources/TableResults.cpp:54-85 | returns the statistics record: the first mismatch, and for each candidate in order its count, percentage and hash |
| Tester.TableResults.Show | Tester/sources/TableResults.cpp:87-165 | the stream gains the report text of the statistics; standard output gains the whole stream, plus a newline when some row mismatched |
| Tester.TableResults.DrawHead | Tester/sources/TableResults.cpp:101-114 | appends the `TEST:` banner, a rule, the header and the row separator |
| Tester.TableResults.DrawWindow | Tester/sources/TableResults.cpp:115-140 | appends the rendering of the window of rows that starts at the first mismatch |
| Tester.TableResults.DrawRowBlock | Tester/sources/TableResults.cpp:121-139 | appends one row, then a skip line when it is the window's last row, then a separator when it closes a packet that is not the last row |
| Tester.TableResults.DrawRow | Tester/sources/TableResults.cpp:122-133 | appends the row number, the shown data cells (the unconverted copy when there is one) and the info cells |
| Tester.TableResults.DrawClosing | Tester/sources/TableResults.cpp:141-163 | appends the DIFF banners, the detail blocks and the closing rule |
| Tester.TableResults.DrawDetails | Tester/sources/TableResults.cpp:151-161 | appends one detail block per candidate in column order, with a blank banner between blocks but not after the last |
| Tester.TableResults.DrawDetail | Tester/sources/TableResults.cpp:152-158 | appends the caption, an empty line and the hash, size, count and match entries of one candidate |
| Tester.TableResults.DrawHeader | Tester/sources/TableResults.cpp:107-113 | appends `Id`, the data column names and the info column names, each centred, with a closing bar only when there are no info columns |
| Tester.TableResults.DrawNames | Tester/sources/TableResults.cpp:108-111 | appends one centred cell per name, in order |
| Tester.TableResults.DrawNextData | Tester/sources/TableResults.cpp:24-37 | appends one centred cell per column for row i, with `{:.4f}` text for floating values |
| Tester.TableResults.DrawRowLine | Tester/sources/TableResults.cpp:238-244 | appends a dashed Id cell, one dashed cell per data column and the closing bar |
| Tester.TableResults.DrawSkipLine | Tester/sources/TableResults.cpp:246-250 | appends `..` under Id and `...` under each data column |
| Tester.TableResults.DrawLine | Tester/sources/TableResults.cpp:252-255 | appends a rule as wide as the whole table |
| Tester.TableResults.DrawTextLine | Tester/sources/TableResults.cpp:257-259 | appends the text centred between two bars |
| Tester.TableResults.DrawTextLineLeft | Tester/sources/TableResults.cpp:260-262 | appends the text left aligned between two bars |
| Tester.TableResults.Clear | Tester/sources/TableResults.cpp:264-270 | empties the names, the data and the info columns and the unconverted copy; the stream keeps its contents |
| Tester.TableResults.Reset | Tester/sources/TableResults.cpp:272-275 | empties the unconverted copy and leaves the stream's contents unchanged |
| Tester.TableResults.ResetFresh | Tester/sources/TableResults.cpp:272-275 | the corrected reset: empties the stream as well as the unconverted copy |
| Tester.TableResults.ProcessAndShowFresh | Tester/sources/TableResults.cpp:171-214 | the corrected processAndShow: on success the stream holds exactly this table's report |
| Tester.EarlierReportRepeated | Tester/sources/TableResults.cpp:272-275 | when the stream still holds an earlier report, what processAndShow prints repeats that report and differs from this table's report |
| Columns.Differs | Tester/sources/TableResults.cpp:66 | two finite values differ when their distance exceeds epsilon; a NaN never differs; a value never differs from itself; an infinite value differs from a finite one |
| Columns.Disagree | Tester/sources/TableResults.cpp:222-229 | integer cells disagree exactly when they are unequal; floating cells disagree by the epsilon test of their type; a column never disagrees with itself |
| Columns.Epsilon | Tester/sources/TableResults.cpp:224 | the epsilon of each floating type is positive |
| Columns.At | Tester/includes/TableResults.hpp:24 | a cell is floating exactly when its column holds float or double |
| Columns.ToDoubles | Tester/sources/TableResults.cpp:40-44 | reads every cell of a column as a double, keeping the length |
| Columns.ConvertColumn | Tester/sources/TableResults.cpp:12-19 | keeps the length, yields a double or int64 column, and keeps each value (read as a double when converting to double) |
| Columns.Unify | Tester/sources/TableResults.cpp:186-212 | keeps the number and lengths of columns, yields columns of one type, and leaves a table of one type unchanged |
| Columns.UnifyKeepsValues | Tester/sources/TableResults.cpp:197-212 | a mixed table becomes double when a floating column is present and int64 otherwise, and every cell keeps its value |
| Statistics.FirstMismatch | Tester/sources/TableResults.cpp:216-236 | none exactly when no row disagrees; otherwise a row that disagrees, with no disagreeing row before it |
| Statistics.FirstMismatchFrom | Tester/sources/TableResults.cpp:218-234 | the same for rows from `from` on |
| Statistics.MismatchCount | Tester/sources/TableResults.cpp:60-79 | at most n; zero exactly when no row disagrees; n exactly when every row does |
| Statistics.MatchPercent | Tester/sources/TableResults.cpp:80 | between 0 and 100; 100 exactly when nothing mismatches; 0 exactly when every row mismatches; percent times size is 100 times the matching rows |
| Statistics.HashInput | Tester/sources/TableResults.cpp:40-48 | the golden column's doubles followed by the candidate's |
| Statistics.DifferenceOf | Tester/sources/TableResults.cpp:58-82 | count zero exactly when no row disagrees; percent 100 exactly when count is zero; a hash exactly when count is not zero, and then it is the digest of the hash input |
| Statistics.StatisticsOf | Tester/sources/TableResults.cpp:54-85 | the first mismatch, and one difference per candidate, in column order |
| Statistics.PassIffNoMismatch | Tester/sources/TableResults.cpp:54-85 | there is no first mismatch exactly when every candidate's count is zero, and exactly when no candidate has a hash |
| Statistics.OneOfThreeRows | Tester/sources/TableResults.cpp:54-85 | for golden [1.0, 2.0, 3.0] and candidate [1.0, 2.5, 3.0], the first mismatch is row 1, there is one difference, its count is 1 and its match percentage times 3 is 200 (two thirds of the rows match) |
| Report.IndexWidth | Tester/sources/TableResults.cpp:88 | the Id column is at least 4 wide and wide enough for the row count's digits |
| Report.IndexFits | Tester/sources/TableResults.cpp:88 | every row number below the row count fits the Id column |
| Report.PassOrDiff | Tester/sources/TableResults.cpp:91-165 | a report has no header exactly when no row mismatched; a passing report is exactly border, `<name>: PASS`, border; a failing one opens with border, `TEST:` banner, border, header and separator, has the DIFF and "Blobs are NOT equal!" banners and ends with the detail rule |
| Report.PrintedRows | Tester/sources/TableResults.cpp:115-140 | the printed rows are exactly f .. min(f + max(height, 1), size) - 1 in order, where f is the first mismatch; a passing report prints none |
| Report.DiffRows | Tester/sources/TableResults.cpp:115-140 | the rows of a failing report are those of its window |
| Report.WindowIndices | Tester/sources/TableResults.cpp:121 | the window's rows are its row numbers in ascending order |
| Report.SkipLines | Tester/sources/TableResults.cpp:116-135 | the sixth line is a skip line exactly when the first mismatch is not row 0; there is one more skip line exactly when the window fits in the table, and no others |
| Report.RowsUpToSkips | Tester/sources/TableResults.cpp:135 | a run of rows holds one skip line when it reaches the window's end and none otherwise |
| Report.OpeningSkips | Tester/sources/TableResults.cpp:116-119 | the opening holds a skip line, as its sixth line, only when rows before the first mismatch are left out |
| Report.WindowSkips | Tester/sources/TableResults.cpp:135 | the window holds a skip line only when it fits in the table |
| Report.ClosingSkips | Tester/sources/TableResults.cpp:141-163 | the closing lines hold no skip line |
| Report.BlockLines | Tester/sources/TableResults.cpp:121-139 | a row's lines start with the row, hold a skip line exactly when it is the window's last row and a separator exactly when it closes a packet that is not the table's last row |
| Report.BlockSkips | Tester/sources/TableResults.cpp:135 | a row's lines hold one skip line exactly when it is the window's last row |
| Report.FirstRow | Tester/sources/TableResults.cpp:121 | the first line of a non-empty run of rows is its first row |
| Report.WindowEnd | Tester/sources/TableResults.cpp:115-121 | the window ends after the first mismatch, within the table and within the height |
| Report.DetailsLength | Tester/sources/TableResults.cpp:151-161 | every detail block before the last takes seven lines |
| Report.DetailOrder | Tester/sources/TableResults.cpp:151-161 | the entries of candidate c start at line 7(c - 1) of the details, so the blocks come in column order |
| Report.DetailEntries | Tester/sources/TableResults.cpp:152-158 | a candidate's entries are six lines |
| Report.DetailKinds | Tester/sources/TableResults.cpp:151-161 | the detail blocks hold only detail-section lines |
| Report.ReportPrintable | Tester/sources/TableResults.cpp:87-165 | every row line of a report names a row of the table |
| Report.BorderWidth | Tester/sources/TableResults.cpp:252-259 | a border, and a banner whose text fits, take the table's line size plus three characters |
| Report.SeparatorWidth | Tester/sources/TableResults.cpp:238-244 | a row separator is as wide as a border |
| Report.SkipWidth | Tester/sources/TableResults.cpp:246-250 | a skip line is as wide as a border when cells are at least 3 wide |
| Report.HeaderWidth | Tester/sources/TableResults.cpp:107-113 | the header is as wide as a border plus one cell per info column, less the missing closing bar |
| Report.RowWidth | Tester/sources/TableResults.cpp:122-133 | a row whose texts fit is as wide as a border plus one cell per info column, less the missing closing bar |
| Report.RowTextLength | Tester/sources/TableResults.cpp:122-133 | a row takes the Id cell, one cell per column and the line's end |
| Report.CellsLength | Tester/sources/TableResults.cpp:108 | texts that fit take one bar and w characters each |
| Report.TimesLength | Tester/sources/TableResults.cpp:240-242 | k copies of a text take k times its length |
| Report.PassText | Tester/sources/TableResults.cpp:91-96 | a passing report is a rule, the centred `<name>: PASS` and a rule |
| Report.OpeningText | Tester/sources/TableResults.cpp:91-119 | the opening is a rule, the head and, when rows before f are left out, a skip line |
| Report.BlockText | Tester/sources/TableResults.cpp:122-139 | a row's lines render to the row, the skip line and the separator where they apply |
| Report.RenderTail | Tester/sources/TableResults.cpp:141-150 | the tail is a rule, the DIFF banners, a rule, an empty line and the detail rule |
| Report.RenderDetail | Tester/sources/TableResults.cpp:152-158 | a candidate's six entries render to its detail text |
| Report.ClosingText | Tester/sources/TableResults.cpp:141-163 | the closing lines render to the tail, the detail blocks and the closing rule |
| Report.FailText | Tester/sources/TableResults.cpp:91-163 | a failing report renders as its opening, its window and its closing, one after the other |
| Report.PassAssembly | Tester/sources/TableResults.cpp:91-98 | drawing a rule, the PASS banner and a rule appends the passing report |
| Report.FailAssembly | Tester/sources/TableResults.cpp:91-163 | drawing the opening, the window and the closing appends the failing report |
| Report.RowsAdvance | Tester/sources/TableResults.cpp:121-140 | drawing one more row's lines extends the drawn run of rows by that row |
| Report.WindowDone | Tester/sources/TableResults.cpp:121 | the run of rows that reaches the window's end is the window |
| Report.DetailsAdvance | Tester/sources/TableResults.cpp:151-161 | drawing one more detail block extends the drawn details by that block |
| Format.Repeat | Tester/sources/TableResults.cpp:239 | n copies of the fill character |
| Format.Centered | Tester/sources/TableResults.cpp:258 | a centred field is as wide as the width or the text, whichever is larger |
| Format.CenteredSplit | Tester/sources/TableResults.cpp:258 | centring puts half the padding, rounded down, before the text and the rest after it |
| Format.CenteredLayout | Tester/sources/TableResults.cpp:258 | the text sits in the middle of a centred field and fill surrounds it |
| Format.LeftAligned | Tester/sources/TableResults.cpp:261 | a left-aligned field is as wide as the width or the text |
| Format.LeftAlignedLayout | Tester/sources/TableResults.cpp:261 | a left-aligned field starts with the text and is padded with spaces |
| Format.NatText | Tester/sources/TableResults.cpp:122 | decimal digits, with a leading zero only for zero |
| Format.NatTextRoundTrip | Tester/sources/TableResults.cpp:122 | reading the decimal text of n gives back n |
| Format.IntText | Tester/sources/TableResults.cpp:32 | an integer's text starts with a minus sign exactly when it is negative |
| Format.DigitCount | Tester/sources/TableResults.cpp:88 | floor(log10(n)) + 1: the d with 10^(d-1) <= n < 10^d |
| Format.NatTextLength | Tester/sources/TableResults.cpp:88 | the decimal text of n has DigitCount(n) characters |
| Format.NatTextShort | Tester/sources/TableResults.cpp:88 | a number below 10^d takes at most max(d, 1) digits |
| Format.RoundHalfEven | Tester/sources/TableResults.cpp:30 | the nearest integer, taking the even one on a tie |
| Format.DecimalDigitsValue | Tester/sources/TableResults.cpp:30 | the whole and fraction digits of a fixed-point text read back as the scaled value |
| Format.PaddedValue | Tester/sources/TableResults.cpp:158 | zero padding does not change a number's value |
| Format.LeadingZeros | Tester/sources/TableResults.cpp:158 | leading zeros do not change the value of a digit string |
| Format.DigitsValueAppend | Tester/sources/TableResults.cpp:30 | reading two digit strings one after the other shifts the first by the second's length |
| TestVector.GetBlobType | Tester/sources/TestVector.cpp:118-126 | succeeds exactly for `float32` and `uint32`, whose names it returns; otherwise the error message quotes the text |
| TestVector.BlobTypeRoundTrip | Tester/sources/TestVector.cpp:118-126 | every blob type is read back from its own name |
| TestVector.BlobTypeCaseSensitive | Tester/sources/Application.cpp:336-344 | the lookup does not fold case |
| TestVector.GetTypeSize | Tester/sources/TestVector.cpp:128-134 | each element type takes 4 bytes |
| TestVector.CheckCount | Tester/sources/TestVector.cpp:37-42 | passes exactly for one or two files |
| TestVector.CheckTestFolder | Tester/sources/TestVector.cpp:37-49 | passes exactly when there are one or two `.json` files and one or two `.cl` files; each failure carries its message, `.json` checked first |
| TestVector.TwoOfEachAccepted | Tester/sources/Application.cpp:119-132 | a folder with two `.json` and two `.cl` files passes the checks as written |
| TestVector.CheckCountStrict | Tester/sources/TestVector.cpp:37-42 | passes exactly for one file |
| TestVector.CheckTestFolderStrict | Tester/sources/TestVector.cpp:37-49 | passes exactly when there is one `.json` file and one `.cl` file |
| TestVector.StrictRuleRefinesCount | Tester/sources/TestVector.cpp:37-49 | the strict rule implies the rule as written; they differ only on folders with two files of a kind |
| TestVector.DisasmVendor | Tester/sources/TestVector.cpp:82-87 | AMD exactly for `Disasm` "AMD", INTEL exactly for "INTEL", NVIDIA without a `Disasm` entry |
| TestVector.DisasmDefault | Tester/sources/Application.cpp:165-172 | NVIDIA exactly when the entry is neither "AMD" nor "INTEL"; lower-case names give NVIDIA |
| TestVector.CheckOutputSizes | Tester/sources/TestVector.cpp:110-115 | a failure carries the message naming the test |
| TestVector.OutputSizesIffPairwise | Tester/sources/Application.cpp:328-333 | passes exactly when every two outputs have the same size |
| Application.GetExpectedVertex | Tester/sources/Application.cpp:53-65 | succeeds exactly when every index's six components lie in the buffer; the result has six values per index, value p being component p mod 6 of vertex indices[p / 6] at uint32 offset 6i + j; a failure names the first index that falls outside |
| Application.NoWrapOffsets | Tester/sources/Application.cpp:56-62 | when 6i + 5 does not wrap, a vertex is readable exactly when 6i + 5 is inside the buffer, and component j is at 6i + j |
| Application.GetExpectedIndex | Tester/sources/Application.cpp:66-72 | six copies of each index, in order |
| Application.ClassifyVendor | Tester/sources/Application.cpp:90-99 | INTEL when the vendor string names Intel; else AMD when it names AMD; else NVIDIA when it names NVIDIA; else the vendor is unchanged |
| Application.ContainsAt | Tester/sources/Application.cpp:90 | a pattern that occurs at a position is found |
| Application.ContainsFound | Tester/sources/Application.cpp:90 | a found pattern occurs at some position |
| Application.ContainsNot | Tester/sources/Application.cpp:97 | a pattern whose first character starts no window of the text is not found |
| Application.MixedVendorString | Tester/sources/Application.cpp:90-96 | "AMD and NVIDIA" names AMD and NVIDIA but not Intel, so by ClassifyVendor's contract the later AMD check decides |

## Left out

- OpenCL (platform, context, queue, kernels, buffers), the filesystem walk, file reads and the JSON parser are not part of this model. The rules are stated over what those deliver: file extensions as strings, the `Disasm` entry as an optional string, output blob sizes as numbers.
- `convertBuffer` (Application.cpp:73-78) reinterprets raw bytes. There is no byte-level memory model here.
- The scripts and `main.cpp` are not part of this model.
- The MD5 digest and the byte image of the doubles it hashes are not modelled. The table's `digest` parameter stands for them.
- Statistics.MatchPercent: is exact real arithmetic. The source computes `100.0 * (1.0 - float(count) / size)` in `float`, so the last digits may differ.
- Columns.AsDouble: treats the conversion of int64 and uint32 values to double as exact. It is not exact beyond 2^53.
- Columns.Differs: compares finite values with exact real subtraction. The source subtracts in the column's floating type, so rounding and overflow to infinity are not modelled.
- Columns.Disagree: compares integer cells as unbounded integers. `golden - col[i] != 0` on int64 can overflow, but only when the values differ, so the verdict is the same.
- Format.FixedText: models `{:.4f}` and `{:.2f}` as rounding of the exact real value, half to even. The C library rounds the binary double, which can differ on ties.
- Report.FloatText: has no signed zero and no NaN sign, because `Float` models neither. `{:.4f}` prints `-0.0000` for a negative zero and `-nan` for a NaN with its sign bit set (the default 0/0 NaN on x86); the model prints `0.0000` and `nan`.
- Format.Centered: counts one column per character. `std::format` counts East Asian wide characters as two columns, so centring of such table or column names differs; the same holds for Format.LeftAligned.
- Tester.TableResults.FindFirstMismatch: takes the row count as an unbounded number. The source passes `data_size` as `unsigned int` (TableResults.cpp:216), which narrows counts of 2^32 rows or more.
- Report.LineSize: is an unbounded number. The source stores `line_size` as `unsigned int` (TableResults.cpp:89), which wraps only for tables wider than 2^32 characters.
- Report.IndexWidth: computes `floor(log10(size)) + 1` as the exact digit count. The floating-point `log10` is not modelled.
- Tester.TableResults.Show: is split into DrawHead, DrawWindow, DrawRowBlock, DrawRow, DrawClosing, DrawDetails and DrawDetail, each stating the lines it appends. The split keeps each proof small. The order of writes is the source's.
- Tester.TableResults.ProcessAndShow: the same-type and converted paths of the source share CompareAndShow and ConvertTable. They call getStatistics and show just as the source does.
- Tester.TableResults.ProcessAndShow: a thrown exception becomes a `Fail` outcome. `reset` runs before the length checks, so a failed length check has already emptied the unconverted copy. The model keeps that.
- Standard output is the `console` field. Its flushing (`std::endl`) is not modelled. Only its contents are.
- TableResults.hpp declares `show(data_size)` and lacks `getHash`, `getStatistics`, `clear`, `reset`, `drawTextLineLeft` and `m_columns_data_unconverted`, all of which TableResults.cpp defines and uses. The model follows TableResults.cpp.
- The class `Application::Test` in Application.cpp (lines 119-132, 165-172, 328-352) repeats the rules of TestVector.cpp. The rules are modelled once, in `TestVector`.
- TestVector.DisasmVendor: a `Disasm` value that is not a string compares unequal to every name, as the JSON library does. It is modelled as any other string.
- Application.ClassifyVendor: the vendor before the checks (`m_vendor`'s initial value) is the `current` parameter.
- Application.GetExpectedVertex: `vector::at` throws `std::out_of_range`. The model's failure carries the position of the index that could not be read instead of the exception.

## Findings

| source | as written | input that shows it | evidently intended | confidence | as-written member | corrected member |
|---|---|---|---|---|---|---|
| Tester/sources/TableResults.cpp:272-275 | `reset` calls `m_ss.clear()`, which clears only the stream's error flags, so the stream keeps the earlier report | a table shown once, then cleared, refilled and shown again: the second print starts with the first report | `reset` empties the stream so each processAndShow prints only its own report | high, not executed | Tester.EarlierReportRepeated | Tester.TableResults.ProcessAndShowFresh |
| Tester/sources/TestVector.cpp:37-49 | the `.json` and `.cl` counts reject only more than two files | a folder with two `.json` and two `.cl` files passes, although the messages say "Only one" | exactly one file of each kind | medium, not executed | TestVector.TwoOfEachAccepted | TestVector.CheckTestFolderStrict |
