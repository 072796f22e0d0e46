# autoloanc — a Dafny model of the table renderer and the driver logic

autoloanc is a command-line auto-loan calculator. It has two pieces of
logic, and this project models both.

**The ASCII table builder `data_table<cols>`** (module `DataTable`, file
`datatable.dfy`).
- It is a container with a fixed number of columns: an array of header
  strings and a growing list of rows, each row one string per column.
- `build_ascii` makes one pass that picks a single column width for every
  column:
  - The width starts at 20 (minimum sizing 16 plus gutter 4).
  - It scans the headers, then the rows in insertion order, each left to
    right.
  - A header longer than the current width sets the width to its length
    plus 4. A cell longer than the current width sets it to its length
    plus 16.
- It then writes five kinds of line: a dash rule, a header line with each
  header centred, a second rule, one line per row with every cell
  right-justified, and a closing rule.
- Every field is followed by the divider `" | "`, and every line is
  terminated by a newline.

The class `Table` keeps the source's state:
- `headers` is an `array<string>` that the setters update in place.
- `rows` is a sequence that `PushRow` extends.

`Table.BuildAscii` reproduces the renderer's loops: the sizing pass
(`Table.MeasureWidth`), the rule loop, the centring loop and the
justified field output. It is proved equal to the pure specification
`Render`. The lemmas about `Render`, `RenderLines` and `ColumnWidth` state
what the rendered text looks like:
- the number and order of its lines;
- every line has the same length;
- the exact contents of every header field and every data field;
- the width bounds and where the width comes from.

**The driver** (module `LoanDriver`, file `driver.dfy`). This covers the
decisions `main` takes:
- the help decision;
- the positional fill of balance, APR and term from the arguments, with the
  argument-count check;
- the term fallback in the two-argument `calculateMonthlyPayment` overload;
- the loop that emits one payment row for the term, then for the term
  minus 6, and so on while the term is positive.

`Run` chains these steps together. A failed parameter read does not stop
the run: it continues with the zeroed parameters and emits no rows.

Some parts enter the model as parameters or as reals:
- The payment formula (`pow` on doubles) is a parameter `pay` of type
  `PaymentFormula`.
- The text-to-number conversion (`atof`) is a parameter `parse` of type
  `Parser`.
- Doubles are modelled as reals.
- The `(int)` conversion of a double truncates toward zero
  (`TruncateToInt`).
- The arguments are character sequences. `strcmp` is modelled with C
  string semantics: a string ends at its first NUL.

Facts of the code that the model keeps as written:
- The term loop steps down by 6 months (src/main.cpp:71).
- A data cell longer than the width grows it to its length plus 16, the
  minimum sizing (src/datatable.h:66-67); a header grows it to its length
  plus the gutter of 4 (src/datatable.h:55-56).
- The width starts at 20 and never drops, so for headers and cells of at
  most 20 characters it is 20 (src/datatable.h:45).
- The payment formula is applied as written, with no special case for a
  zero rate (src/main.cpp:170-177); here it is the parameter `pay`.

## Model

| member | source | states |
|---|---|---|
| DataTable.ScanHeaders | src/datatable.h:52-57 | the header pass never lowers the width, and leaves it at least as long as every header it saw |
| DataTable.ScanCells | src/datatable.h:63-68 | a row's pass never lowers the width, and leaves it at least as long as every cell of the row |
| DataTable.ScanRows | src/datatable.h:46-70 | the pass over all rows never lowers the width, and leaves it at least as long as every cell of every row |
| DataTable.ColumnWidth | src/datatable.h:45-70 | the shared width is at least 20 (sizing 16 + gutter 4) and at least the length of every header and every cell |
| DataTable.ScanHeadersOrigin | src/datatable.h:55-56 | after the header pass the width is either the starting width, or the length of some header longer than the starting width, plus 4 |
| DataTable.ScanCellsOrigin | src/datatable.h:66-67 | after a row's pass the width is either the starting width, or the length of some cell longer than the starting width, plus 16 |
| DataTable.ScanRowsOrigin | src/datatable.h:46-70 | after the pass over all rows the width is either the starting width, or the length of some cell longer than the starting width, plus 16 |
| DataTable.ColumnWidthOrigin | src/datatable.h:45-70 | the final width is one of: 20; a header of more than 20 characters plus 4; a cell of more than 20 characters plus 16 |
| DataTable.ScanHeadersFixed | src/datatable.h:55 | headers no longer than the current width leave it unchanged |
| DataTable.ScanCellsFixed | src/datatable.h:66 | cells no longer than the current width leave it unchanged |
| DataTable.ScanRowsFixed | src/datatable.h:61-69 | rows whose cells are no longer than the current width leave it unchanged |
| DataTable.ColumnWidthUnchanged | src/datatable.h:45-70 | when no header and no cell is longer than 20, the width stays 20 |
| DataTable.GrowthExamples | src/datatable.h:55-56 | a 21-character header gives width 25; a 21-character cell gives 37; a 21-character header then a 22-character cell gives 25, because the cell is not longer than the width the header set |
| DataTable.SplitJoinLines | src/datatable.h:79-110 | splitting the newline-terminated output at its newlines gives back exactly the lines written, when no line holds a newline |
| DataTable.CentredFieldShape | src/datatable.h:87-92 | a header field is (width - len) / 2 spaces, the header, then the rest of the width in spaces (as many as the leading ones or one more), then the divider |
| DataTable.RightFieldShape | src/datatable.h:104 | a data field is width - len spaces, the cell text in full, then the divider |
| DataTable.FieldLength | src/datatable.h:92 | a field whose text fits in the width is width + 3 characters long |
| DataTable.FieldsLength | src/datatable.h:83-94 | the fields of a line that fit in the width take (width + 3) per column |
| DataTable.SepCountIsSpan | src/datatable.h:76 | the separator count equals the opening divider plus one (width + 3) field per column |
| DataTable.ColumnStartOffset | src/datatable.h:82-92 | column k's field starts at 3 + k * (width + 3) in a header or data line |
| DataTable.HeaderLineColumn | src/datatable.h:82-92 | a header line opens with the divider; at column k's offset it holds the centred header (leading spaces, text, trailing spaces) and then the divider |
| DataTable.DataLineColumn | src/datatable.h:101-105 | a data line opens with the divider; at column k's offset it holds width - len spaces, the untruncated cell, and then the divider |
| DataTable.RenderShape | src/datatable.h:76-110 | the table has rows + 4 lines: rule, header line, rule, one line per row in insertion order, rule; every line is separator-count long |
| DataTable.RenderSplit | src/datatable.h:79-112 | when headers and cells hold no newline, the returned string splits into exactly those rows + 4 lines |
| DataTable.AppendRule | src/datatable.h:79 | the dash loop appends n dashes and a line end to what was written |
| DataTable.CenterText | src/datatable.h:86-89 | the temporary holds the centring spaces followed by the header |
| DataTable.AppendHeaderLine | src/datatable.h:82-95 | the header loop appends the opening divider, each header centred and left-justified to the width with its divider, and a line end |
| DataTable.AppendDataLine | src/datatable.h:101-106 | the cell loop appends the opening divider, each cell right-justified to the width with its divider, and a line end |
| DataTable.AppendTop | src/datatable.h:78-96 | the top of the table is rule, header line, rule, each newline-terminated |
| DataTable.AppendDataLines | src/datatable.h:99-107 | the row loop appends one data line per row, in insertion order |
| DataTable.Table.constructor | src/datatable.h:29-31 | a new table has cols empty headers and no rows |
| DataTable.Table.SetHeader | src/datatable.h:23 | only header index changes, to the new title; the rows are unchanged |
| DataTable.Table.SetHeaders | src/datatable.h:24 | all headers are replaced by the given ones; the rows are unchanged |
| DataTable.Table.PushRow | src/datatable.h:25 | the row is appended at the end; earlier rows and all headers are unchanged |
| DataTable.Table.MeasureWidth | src/datatable.h:45-70 | the sizing loops (headers at r = -1, then each row) compute ColumnWidth of the stored headers and rows |
| DataTable.Table.BuildAscii | src/datatable.h:38-114 | the renderer returns Render of the stored headers and rows and changes neither |
| DataTable.Table.RenderTwice | src/datatable.h:38-114 | two consecutive renders of the same table return the same string |
| LoanDriver.WithParam | src/main.cpp:139 | writing slot i of the parameter array sets that field and leaves the other two unchanged |
| LoanDriver.TruncateToInt | src/main.cpp:71 | the (int) conversion truncates toward zero: the result is within one of the value, on the side of zero |
| LoanDriver.TermScheduleShape | src/main.cpp:71 | the loop visits ceil(t / 6) terms for t > 0 and none otherwise; term i is t - 6i, every term is positive, terms descend by exactly 6, and one more step would not be positive |
| LoanDriver.MonthlyPayment | src/main.cpp:158-164 | the payment uses the alternative term when it is positive, otherwise the parameters' term converted to int |
| LoanDriver.ScheduleFromRows | src/main.cpp:71-79 | row i is for the i-th visited term; its payment is the formula at that term, its total is payment times term, its interest is total minus balance |
| LoanDriver.ScheduleRowsShape | src/main.cpp:71-79 | the table for given parameters has ceil(t / 6) rows for t = (int)term, for terms t, t - 6, ..., with total = payment x term and interest = total - balance |
| LoanDriver.NoRowsWithoutTerm | src/main.cpp:55-57 | parameters whose term is below one month, in particular the zero-initialised ones, give no rows |
| LoanDriver.ScheduleRows | src/main.cpp:71-79 | the loop emits exactly the rows of Schedule |
| LoanDriver.CString | src/main.cpp:106 | the C string of a character sequence is its prefix before the first NUL |
| LoanDriver.StrcmpZeroIff | src/main.cpp:106 | strcmp returns 0 exactly when the two C strings are equal |
| LoanDriver.ValidateHelp | src/main.cpp:90-126 | help is shown exactly when there is no argument, or when the first argument is -h or --help |
| LoanDriver.ValidateFinanceParameters | src/main.cpp:132-143 | with fewer than four arguments it fails and leaves the parameters untouched; otherwise balance, apr and term are the parses of arguments 1, 2 and 3, each read as a C string |
| LoanDriver.Run | src/main.cpp:47-83 | help means no rows; a failed read continues with zeroed parameters and gives no rows; otherwise the rows are the schedule of the parameters parsed from arguments 1 to 3 |

## Left out

- The payment formula with `pow` and double division (src/main.cpp:170-177) is float numerics. It is the parameter `pay`, so no property of the payment values themselves is proved.
- `atof` (src/main.cpp:139) is a C library call. It is the parameter `parse`.
- All console output is I/O and number-to-text formatting, so it is left out. This covers the rules, the column titles, the `setprecision`/`setw` formatting of amounts in `main`, and the help and usage text (src/main.cpp:60-70, 76-78, 109-122, 151-152). `main`'s table is printed with iostream and does not use `data_table`.
- The `DEBUG_MODE` argument dump (src/main.cpp:94-96) is switched off in the source.
- The unused `parameters` map field (src/main.cpp:38) is never read.
- The union overlay of the three fields with `_params[3]` (src/main.cpp:28-37) is memory layout. The model uses a record with an index-to-field mapping (`Param`, `WithParam`).
- `std::stringstream` and `std::endl` flushing are treated as appending to a character sequence with `'\n'` line ends.
- LoanDriver.TruncateToInt: a double outside the `int` range is undefined behaviour in the source. The model truncates any real exactly.
- DataTable.ColumnWidth: lengths are unbounded integers. The source stores lengths in `int`, which would wrap for strings longer than 2^31 - 1 characters.
- DataTable.Lead: the centring count is computed in unsigned arithmetic in the source. A header longer than the width would give a negative count and no spaces. The sizing pass rules this case out, and the model writes 0 for it.
- LoanDriver.ValidateHelp requires at least one argument (the program name). With none, the source would read past the end of `argv`.
- Doubles are reals, so rounding in `m * aterm` and `tloan - balance` is not modelled.
- Strings are the byte sequences of the std::string: one char stands for one byte, so lengths, centring and padding count bytes as the source does; multi-byte text is not decoded.
- DataTable.Table.SetHeader requires 0 <= index < cols: an index outside that range is undefined behaviour in the source (`std::array::operator[]`).
- DataTable.SepCount: the source computes the separator count in `int`, where `maximumColumnSizing*cols` can overflow for very wide tables; the model uses unbounded integers.
