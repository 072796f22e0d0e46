// A model of the ASCII table builder data_table<cols>: a fixed-arity header
// array, a growing list of fixed-arity rows, and a renderer that sizes one
// shared column width and emits a boxed, dash-ruled table.

module DataTable {

  /** Default column size and the gutter added around header text. */
  const MinColumnSizing := 16
  const MinColumnGutter := 4
  /** Token printed before every column and after the last one. */
  const Divider := " | "
  /** The width the sizing pass starts from. */
  const InitialWidth := MinColumnSizing + MinColumnGutter

  /** The character c written n times. */
  function Repeat(c: char, n: nat): (r: string)
    ensures |r| == n
  {
    if n == 0 then [] else Repeat(c, n - 1) + [c]
  }

  lemma {:induction false} RepeatOnly(c: char, n: nat)
    ensures forall x :: x in Repeat(c, n) ==> x == c
  {
    if n > 0 {
      RepeatOnly(c, n - 1);
    }
  }

  function Spaces(n: nat): (r: string)
    ensures |r| == n
  { Repeat(' ', n) }

  /** A horizontal rule: the row spacer token "-" repeated n times. */
  function Rule(n: nat): (r: string)
    ensures |r| == n
  { Repeat('-', n) }

  /** `std::setw(w) << std::left << s`: pads on the right, never truncates. */
  function LeftJustify(s: string, w: int): string
  {
    if |s| < w then s + Spaces(w - |s|) else s
  }

  /** `std::setw(w) << std::right << s`: pads on the left, never truncates. */
  function RightJustify(s: string, w: int): string
  {
    if |s| < w then Spaces(w - |s|) + s else s
  }

  // ---------------------------------------------------------------------
  // The sizing pass: headers first, then rows in order, columns left to
  // right. A header longer than the current width sets it to len + gutter;
  // a cell longer than the current width sets it to len + MinColumnSizing.

  function HeaderStep(w: int, h: string): int
  {
    if |h| > w then |h| + MinColumnGutter else w
  }

  function CellStep(w: int, c: string): int
  {
    if |c| > w then |c| + MinColumnSizing else w
  }

  /** The width after scanning the headers hs from left to right. */
  function ScanHeaders(w: int, hs: seq<string>): (r: int)
    ensures r >= w
    ensures forall i :: 0 <= i < |hs| ==> |hs[i]| <= r
  {
    if hs == [] then w else HeaderStep(ScanHeaders(w, hs[..|hs| - 1]), hs[|hs| - 1])
  }

  /** The width after scanning the cells of one row from left to right. */
  function ScanCells(w: int, cs: seq<string>): (r: int)
    ensures r >= w
    ensures forall j :: 0 <= j < |cs| ==> |cs[j]| <= r
  {
    if cs == [] then w else CellStep(ScanCells(w, cs[..|cs| - 1]), cs[|cs| - 1])
  }

  /** The width after scanning the rows in insertion order. */
  function ScanRows(w: int, rows: seq<seq<string>>): (r: int)
    ensures r >= w
    ensures forall i, j :: 0 <= i < |rows| && 0 <= j < |rows[i]| ==> |rows[i][j]| <= r
  {
    if rows == [] then w
    else
      var before := ScanRows(w, rows[..|rows| - 1]);
      assert forall i :: 0 <= i < |rows| - 1 ==> rows[..|rows| - 1][i] == rows[i];
      ScanCells(before, rows[|rows| - 1])
  }

  /** The single column width shared by every column. */
  function ColumnWidth(hs: seq<string>, rows: seq<seq<string>>): (w: int)
    ensures w >= InitialWidth
    ensures forall i :: 0 <= i < |hs| ==> |hs[i]| <= w
    ensures forall i, j :: 0 <= i < |rows| && 0 <= j < |rows[i]| ==> |rows[i][j]| <= w
  {
    ScanRows(ScanHeaders(InitialWidth, hs), rows)
  }

  lemma {:induction false} ScanHeadersOrigin(w: int, hs: seq<string>)
    ensures ScanHeaders(w, hs) == w
         || exists i :: 0 <= i < |hs| && |hs[i]| > w && ScanHeaders(w, hs) == |hs[i]| + MinColumnGutter
  {
    if hs != [] {
      var init := hs[..|hs| - 1];
      ScanHeadersOrigin(w, init);
      if ScanHeaders(w, hs) != ScanHeaders(w, init) {
        var k := |hs| - 1;
        assert ScanHeaders(w, hs) == |hs[k]| + MinColumnGutter && |hs[k]| > w;
      } else if ScanHeaders(w, init) != w {
        var i :| 0 <= i < |init| && |init[i]| > w && ScanHeaders(w, init) == |init[i]| + MinColumnGutter;
        assert init[i] == hs[i];
      }
    }
  }

  lemma {:induction false} ScanCellsOrigin(w: int, cs: seq<string>)
    ensures ScanCells(w, cs) == w
         || exists j :: 0 <= j < |cs| && |cs[j]| > w && ScanCells(w, cs) == |cs[j]| + MinColumnSizing
  {
    if cs != [] {
      var init := cs[..|cs| - 1];
      ScanCellsOrigin(w, init);
      if ScanCells(w, cs) != ScanCells(w, init) {
        var k := |cs| - 1;
        assert ScanCells(w, cs) == |cs[k]| + MinColumnSizing && |cs[k]| > w;
      } else if ScanCells(w, init) != w {
        var j :| 0 <= j < |init| && |init[j]| > w && ScanCells(w, init) == |init[j]| + MinColumnSizing;
        assert init[j] == cs[j];
      }
    }
  }

  lemma {:induction false} ScanRowsOrigin(w: int, rows: seq<seq<string>>)
    ensures ScanRows(w, rows) == w
         || exists i, j :: 0 <= i < |rows| && 0 <= j < |rows[i]| && |rows[i][j]| > w
                           && ScanRows(w, rows) == |rows[i][j]| + MinColumnSizing
  {
    if rows != [] {
      var init := rows[..|rows| - 1];
      var k := |rows| - 1;
      var before := ScanRows(w, init);
      ScanRowsOrigin(w, init);
      ScanCellsOrigin(before, rows[k]);
      if ScanRows(w, rows) != before {
        var j :| 0 <= j < |rows[k]| && |rows[k][j]| > before
                 && ScanCells(before, rows[k]) == |rows[k][j]| + MinColumnSizing;
        assert |rows[k][j]| > w;
      } else if before != w {
        var i, j :| 0 <= i < |init| && 0 <= j < |init[i]| && |init[i][j]| > w
                    && before == |init[i][j]| + MinColumnSizing;
        assert init[i] == rows[i];
      }
    }
  }

  /**
   * The width only ever moves to a string's length plus its growth amount,
   * and only for a string longer than the width at that moment (so longer
   * than InitialWidth): it is InitialWidth, or some header's length plus
   * the gutter, or some cell's length plus MinColumnSizing.
   */
  lemma ColumnWidthOrigin(hs: seq<string>, rows: seq<seq<string>>)
    ensures var w := ColumnWidth(hs, rows);
            (w == InitialWidth
             || (exists i :: 0 <= i < |hs| && |hs[i]| > InitialWidth && w == |hs[i]| + MinColumnGutter)
             || (exists i, j :: 0 <= i < |rows| && 0 <= j < |rows[i]| && |rows[i][j]| > InitialWidth
                                && w == |rows[i][j]| + MinColumnSizing))
  {
    var afterHeaders := ScanHeaders(InitialWidth, hs);
    ScanHeadersOrigin(InitialWidth, hs);
    ScanRowsOrigin(afterHeaders, rows);
  }

  lemma {:induction false} ScanHeadersFixed(w: int, hs: seq<string>)
    requires forall i :: 0 <= i < |hs| ==> |hs[i]| <= w
    ensures ScanHeaders(w, hs) == w
  {
    if hs != [] {
      ScanHeadersFixed(w, hs[..|hs| - 1]);
    }
  }

  lemma {:induction false} ScanCellsFixed(w: int, cs: seq<string>)
    requires forall j :: 0 <= j < |cs| ==> |cs[j]| <= w
    ensures ScanCells(w, cs) == w
  {
    if cs != [] {
      ScanCellsFixed(w, cs[..|cs| - 1]);
    }
  }

  lemma {:induction false} ScanRowsFixed(w: int, rows: seq<seq<string>>)
    requires forall i, j :: 0 <= i < |rows| && 0 <= j < |rows[i]| ==> |rows[i][j]| <= w
    ensures ScanRows(w, rows) == w
  {
    if rows != [] {
      var init := rows[..|rows| - 1];
      assert forall i :: 0 <= i < |init| ==> init[i] == rows[i];
      ScanRowsFixed(w, init);
      ScanCellsFixed(w, rows[|rows| - 1]);
    }
  }

  /** No string longer than InitialWidth: the width stays at InitialWidth. */
  lemma ColumnWidthUnchanged(hs: seq<string>, rows: seq<seq<string>>)
    requires forall i :: 0 <= i < |hs| ==> |hs[i]| <= InitialWidth
    requires forall i, j :: 0 <= i < |rows| && 0 <= j < |rows[i]| ==> |rows[i][j]| <= InitialWidth
    ensures ColumnWidth(hs, rows) == InitialWidth
  {
    ScanHeadersFixed(InitialWidth, hs);
    ScanRowsFixed(InitialWidth, rows);
  }

  /**
   * The two growth rules differ and the pass is order dependent: a 21-char
   * header gives width 25, a 21-char cell gives 37, and a 22-char cell after
   * a 21-char header leaves the width at 25.
   */
  lemma GrowthExamples()
    ensures ColumnWidth([seq(21, _ => 'x')], [[""]]) == 25
    ensures ColumnWidth([""], [[seq(21, _ => 'x')]]) == 37
    ensures ColumnWidth([seq(21, _ => 'x')], [[seq(22, _ => 'x')]]) == 25
  {
    var x21: string := seq(21, _ => 'x');
    var x22: string := seq(22, _ => 'x');
    assert [x21][..0] == [] && [""][..0] == [] && [x22][..0] == [];
    assert ScanHeaders(InitialWidth, [x21]) == 25;
    assert ScanHeaders(InitialWidth, [""]) == InitialWidth;
    assert ScanCells(25, [""]) == 25;
    assert ScanCells(InitialWidth, [x21]) == 37;
    assert ScanCells(25, [x22]) == 25;
    var r1: seq<seq<string>> := [[""]];
    var r2: seq<seq<string>> := [[x21]];
    var r3: seq<seq<string>> := [[x22]];
    assert r1[..0] == [] && r2[..0] == [] && r3[..0] == [];
    assert ScanRows(25, r1) == ScanCells(25, [""]);
    assert ScanRows(InitialWidth, r2) == ScanCells(InitialWidth, [x21]);
    assert ScanRows(25, r3) == ScanCells(25, [x22]);
  }

  // ---------------------------------------------------------------------
  // The rendered text.

  /** Length of every output line: the separator count of the renderer. */
  function SepCount(w: int, cols: nat): int
  {
    w * cols + cols * |Divider| + |Divider|
  }

  /**
   * The centring count (w - len) / 2. The renderer computes it in unsigned
   * arithmetic; for a header longer than w (which the sizing pass rules
   * out) the count converted back to int is negative and no space is
   * written, hence 0.
   */
  function Lead(w: int, h: string): nat
  {
    if |h| <= w then (w - |h|) / 2 else 0
  }

  /** How a field places its text: headers are centred, cells right-justified. */
  datatype Align = Centred | Right

  /** One w-wide field followed by the divider. */
  function Field(a: Align, w: int, text: string): string
  {
    match a
    case Centred => LeftJustify(Spaces(Lead(w, text)) + text, w) + Divider
    case Right => RightJustify(text, w) + Divider
  }

  /** The field of every cell, in column order. */
  function FieldList(a: Align, w: int, cells: seq<string>): (r: seq<string>)
    ensures |r| == |cells|
    ensures forall i :: 0 <= i < |cells| ==> r[i] == Field(a, w, cells[i])
  {
    if cells == [] then [] else FieldList(a, w, cells[..|cells| - 1]) + [Field(a, w, cells[|cells| - 1])]
  }

  /** The parts written one after the other. */
  function Join(parts: seq<string>): string
  {
    if parts == [] then [] else Join(parts[..|parts| - 1]) + parts[|parts| - 1]
  }

  /** The fields of one line, in column order. */
  function Fields(a: Align, w: int, cells: seq<string>): string
  {
    Join(FieldList(a, w, cells))
  }

  function HeaderLine(w: int, hs: seq<string>): string
  {
    Divider + Fields(Centred, w, hs)
  }

  function DataLine(w: int, row: seq<string>): string
  {
    Divider + Fields(Right, w, row)
  }

  /** One data line per row, in insertion order. */
  function DataLines(w: int, rows: seq<seq<string>>): (r: seq<string>)
    ensures |r| == |rows|
    ensures forall i :: 0 <= i < |rows| ==> r[i] == DataLine(w, rows[i])
  {
    if rows == [] then []
    else DataLines(w, rows[..|rows| - 1]) + [DataLine(w, rows[|rows| - 1])]
  }

  /** Every row has the arity of the header array. */
  ghost predicate WellFormed(hs: seq<string>, rows: seq<seq<string>>)
  {
    forall i :: 0 <= i < |rows| ==> |rows[i]| == |hs|
  }

  /** The lines of the table, top to bottom, without their line ends. */
  function RenderLines(hs: seq<string>, rows: seq<seq<string>>): seq<string>
  {
    var w := ColumnWidth(hs, rows);
    var rule := Rule(SepCount(w, |hs|));
    [rule, HeaderLine(w, hs), rule] + DataLines(w, rows) + [rule]
  }

  /** Each line followed by a newline. */
  function JoinLines(lines: seq<string>): string
  {
    if lines == [] then [] else lines[0] + "\n" + JoinLines(lines[1..])
  }

  /** The string the renderer returns for these headers and rows. */
  function Render(hs: seq<string>, rows: seq<seq<string>>): string
  {
    JoinLines(RenderLines(hs, rows))
  }

  // ---------------------------------------------------------------------
  // Reading the text back as lines.

  /** Index of the first newline of s, or |s| if there is none. */
  function FirstNewline(s: string): (i: nat)
    ensures i <= |s|
    ensures forall k :: 0 <= k < i ==> s[k] != '\n'
    ensures i < |s| ==> s[i] == '\n'
  {
    if s == [] || s[0] == '\n' then 0 else 1 + FirstNewline(s[1..])
  }

  /** Splits s at its newlines; text after the last newline is a last line. */
  function SplitLines(s: string): seq<string>
    decreases |s|
  {
    if s == [] then []
    else
      var i := FirstNewline(s);
      if i == |s| then [s] else [s[..i]] + SplitLines(s[i + 1..])
  }

  /** Joining lines that hold no newline and splitting again is the identity. */
  lemma {:induction false} SplitJoinLines(lines: seq<string>)
    requires forall i :: 0 <= i < |lines| ==> '\n' !in lines[i]
    ensures SplitLines(JoinLines(lines)) == lines
  {
    if lines != [] {
      var s := JoinLines(lines);
      var n := |lines[0]|;
      assert s == lines[0] + "\n" + JoinLines(lines[1..]);
      assert s[n] == '\n';
      assert forall k :: 0 <= k < n ==> s[k] == lines[0][k];
      assert FirstNewline(s) == n;
      assert s[..n] == lines[0];
      assert s[n + 1..] == JoinLines(lines[1..]);
      SplitJoinLines(lines[1..]);
    }
  }

  lemma {:induction false} JoinLinesAppend(a: seq<string>, b: seq<string>)
    ensures JoinLines(a + b) == JoinLines(a) + JoinLines(b)
  {
    if a != [] {
      assert (a + b)[1..] == a[1..] + b;
      JoinLinesAppend(a[1..], b);
    } else {
      assert a + b == b;
    }
  }

  lemma JoinLinesSnoc(lines: seq<string>, l: string)
    ensures JoinLines(lines + [l]) == JoinLines(lines) + l + "\n"
  {
    JoinLinesAppend(lines, [l]);
    assert JoinLines([l]) == l + "\n" + JoinLines([]);
  }

  // ---------------------------------------------------------------------
  // The shape of fields and lines.

  /**
   * A header field holds Lead spaces, the text, then the remaining spaces
   * (as many as Lead or one more: the text is centred), then the divider.
   */
  lemma CentredFieldShape(w: int, h: string)
    requires |h| <= w
    ensures Lead(w, h) <= w - |h| - Lead(w, h) <= Lead(w, h) + 1
    ensures Field(Centred, w, h) == Spaces(Lead(w, h)) + h + Spaces(w - |h| - Lead(w, h)) + Divider
  {
    var lead := Lead(w, h);
    assert Spaces(lead) + h + Spaces(w - |h| - lead) == (Spaces(lead) + h) + Spaces(w - |h| - lead);
  }

  /** A data field holds w - len spaces, the cell text, then the divider. */
  lemma RightFieldShape(w: int, c: string)
    requires |c| <= w
    ensures Field(Right, w, c) == Spaces(w - |c|) + c + Divider
  {
  }

  lemma FieldLength(a: Align, w: int, text: string)
    requires |text| <= w
    ensures |Field(a, w, text)| == w + |Divider|
  {
    if a == Centred {
      CentredFieldShape(w, text);
    } else {
      RightFieldShape(w, text);
    }
  }

  lemma FieldNoNewline(a: Align, w: int, text: string)
    requires '\n' !in text
    ensures '\n' !in Field(a, w, text)
  {
    RepeatOnly(' ', Lead(w, text));
    RepeatOnly(' ', if |text| < w then w - |text| else 0);
    RepeatOnly(' ', if |Spaces(Lead(w, text)) + text| < w then w - |Spaces(Lead(w, text)) + text| else 0);
  }

  lemma FieldsSnoc(a: Align, w: int, cells: seq<string>, c: nat)
    requires c < |cells|
    ensures Fields(a, w, cells[..c + 1]) == Fields(a, w, cells[..c]) + Field(a, w, cells[c])
  {
    assert cells[..c + 1][..c] == cells[..c];
    var parts := FieldList(a, w, cells[..c]);
    assert FieldList(a, w, cells[..c + 1]) == parts + [Field(a, w, cells[c])];
    assert (parts + [Field(a, w, cells[c])])[..|parts|] == parts;
  }

  /** The width of k fields of n characters each: k * n, by recursion. */
  function Span(k: nat, n: nat): nat
  {
    if k == 0 then 0 else Span(k - 1, n) + n
  }

  lemma {:induction false} SpanIsProduct(k: nat, n: nat)
    ensures Span(k, n) == k * n
  {
    if k > 0 {
      SpanIsProduct(k - 1, n);
    }
  }

  lemma {:induction false} JoinLength(parts: seq<string>, n: nat)
    requires forall i :: 0 <= i < |parts| ==> |parts[i]| == n
    ensures |Join(parts)| == Span(|parts|, n)
  {
    if parts != [] {
      JoinLength(parts[..|parts| - 1], n);
    }
  }

  /** Part k of a join of n-wide parts starts at Span(k, n). */
  lemma {:induction false} JoinSlot(parts: seq<string>, n: nat, k: nat)
    requires forall i :: 0 <= i < |parts| ==> |parts[i]| == n
    requires k < |parts|
    ensures Span(k, n) + n <= |Join(parts)|
    ensures Join(parts)[Span(k, n) .. Span(k, n) + n] == parts[k]
  {
    var m := |parts| - 1;
    var init := parts[..m];
    JoinLength(init, n);
    var before := Join(init);
    assert Join(parts) == before + parts[m];
    if k < m {
      JoinSlot(init, n, k);
      var x := Span(k, n);
      assert Join(parts)[x .. x + n] == before[x .. x + n];
    } else {
      assert Join(parts)[Span(m, n)..] == parts[m];
    }
  }

  lemma {:induction false} JoinNoNewline(parts: seq<string>)
    requires forall i :: 0 <= i < |parts| ==> '\n' !in parts[i]
    ensures '\n' !in Join(parts)
  {
    if parts != [] {
      JoinNoNewline(parts[..|parts| - 1]);
    }
  }

  lemma FieldsLength(a: Align, w: nat, cells: seq<string>)
    requires forall i :: 0 <= i < |cells| ==> |cells[i]| <= w
    ensures |Fields(a, w, cells)| == Span(|cells|, w + |Divider|)
  {
    FieldListUniform(a, w, cells);
    JoinLength(FieldList(a, w, cells), w + |Divider|);
  }

  lemma FieldsNoNewline(a: Align, w: int, cells: seq<string>)
    requires forall i :: 0 <= i < |cells| ==> '\n' !in cells[i]
    ensures '\n' !in Fields(a, w, cells)
  {
    var parts := FieldList(a, w, cells);
    forall i | 0 <= i < |parts| ensures '\n' !in parts[i] {
      FieldNoNewline(a, w, cells[i]);
    }
    JoinNoNewline(parts);
  }

  /** Where column k's w-wide field starts in a header or data line. */
  function ColumnStart(w: nat, k: nat): nat
  {
    |Divider| + Span(k, w + |Divider|)
  }

  /** Column k starts after the opening divider and k fields of w + 3. */
  lemma ColumnStartOffset(w: nat, k: nat)
    ensures ColumnStart(w, k) == |Divider| + k * (w + |Divider|)
  {
    SpanIsProduct(k, w + |Divider|);
  }

  /** A line of cols fields is SepCount long. */
  lemma SepCountIsSpan(w: nat, cols: nat)
    ensures SepCount(w, cols) == |Divider| + Span(cols, w + |Divider|)
  {
    SpanIsProduct(cols, w + |Divider|);
  }

  lemma SliceParts(line: string, at: nat, x: string, y: string)
    requires at + |x| + |y| <= |line|
    requires line[at .. at + |x| + |y|] == x + y
    ensures line[at .. at + |x|] == x
    ensures line[at + |x| .. at + |x| + |y|] == y
  {
    assert line[at .. at + |x|] == line[at .. at + |x| + |y|][..|x|];
    assert line[at + |x| .. at + |x| + |y|] == line[at .. at + |x| + |y|][|x|..];
  }

  lemma FieldListUniform(a: Align, w: nat, cells: seq<string>)
    requires forall i :: 0 <= i < |cells| ==> |cells[i]| <= w
    ensures forall i :: 0 <= i < |cells| ==> |FieldList(a, w, cells)[i]| == w + |Divider|
  {
    forall i | 0 <= i < |cells| ensures |FieldList(a, w, cells)[i]| == w + |Divider| {
      FieldLength(a, w, cells[i]);
    }
  }

  // ---------------------------------------------------------------------
  // Unfolding helpers. Each one restates a definition (or a plain fact
  // about slicing a concatenation); they are not properties of the
  // renderer. The proofs below that hide function bodies to stay cheap
  // call them to get back exactly the unfoldings they need.

  lemma HeaderLineDef(w: int, hs: seq<string>)
    ensures HeaderLine(w, hs) == Divider + Fields(Centred, w, hs)
  {
  }

  lemma DataLineDef(w: int, row: seq<string>)
    ensures DataLine(w, row) == Divider + Fields(Right, w, row)
  {
  }

  lemma FieldsDef(a: Align, w: int, cells: seq<string>)
    ensures Fields(a, w, cells) == Join(FieldList(a, w, cells))
  {
  }

  lemma FieldsEmpty(a: Align, w: int)
    ensures Fields(a, w, []) == ""
  {
  }

  lemma ColumnStartDef(w: nat, k: nat)
    ensures ColumnStart(w, k) == |Divider| + Span(k, w + |Divider|)
  {
  }

  lemma SliceAfterPrefix(p: string, s: string, a: nat, n: nat)
    requires a + n <= |s|
    ensures (p + s)[|p| + a .. |p| + a + n] == s[a .. a + n]
  {
  }

  // ---------------------------------------------------------------------
  // Columns of a line.

  lemma LineColumn(a: Align, w: nat, cells: seq<string>, k: nat)
    requires forall i :: 0 <= i < |cells| ==> |cells[i]| <= w
    requires k < |cells|
    ensures ColumnStart(w, k) + w + |Divider| <= |Divider + Fields(a, w, cells)|
    ensures (Divider + Fields(a, w, cells))[ColumnStart(w, k) .. ColumnStart(w, k) + w + |Divider|]
            == FieldList(a, w, cells)[k]
  {
    hide *;
    FieldsDef(a, w, cells);
    ColumnStartDef(w, k);
    var parts := FieldList(a, w, cells);
    FieldListUniform(a, w, cells);
    JoinSlot(parts, w + |Divider|, k);
    SliceAfterPrefix(Divider, Join(parts), Span(k, w + |Divider|), w + |Divider|);
  }

  /**
   * Column k of a header line: the line opens with the divider, field k
   * holds the centred header text and is followed by the divider.
   */
  lemma HeaderLineColumn(w: nat, hs: seq<string>, k: nat)
    requires forall i :: 0 <= i < |hs| ==> |hs[i]| <= w
    requires k < |hs|
    ensures ColumnStart(w, k) + w + |Divider| <= |HeaderLine(w, hs)|
    ensures HeaderLine(w, hs)[..|Divider|] == Divider
    ensures HeaderLine(w, hs)[ColumnStart(w, k) .. ColumnStart(w, k) + w]
            == Spaces(Lead(w, hs[k])) + hs[k] + Spaces(w - |hs[k]| - Lead(w, hs[k]))
    ensures HeaderLine(w, hs)[ColumnStart(w, k) + w .. ColumnStart(w, k) + w + |Divider|] == Divider
  {
    hide *;
    HeaderLineDef(w, hs);
    LineColumn(Centred, w, hs, k);
    CentredFieldShape(w, hs[k]);
    var lead := Lead(w, hs[k]);
    SliceParts(HeaderLine(w, hs), ColumnStart(w, k), Spaces(lead) + hs[k] + Spaces(w - |hs[k]| - lead), Divider);
  }

  /**
   * Column k of a data line: field k holds the cell right-justified after
   * w - len spaces, never truncated, and is followed by the divider.
   */
  lemma DataLineColumn(w: nat, row: seq<string>, k: nat)
    requires forall i :: 0 <= i < |row| ==> |row[i]| <= w
    requires k < |row|
    ensures ColumnStart(w, k) + w + |Divider| <= |DataLine(w, row)|
    ensures DataLine(w, row)[..|Divider|] == Divider
    ensures DataLine(w, row)[ColumnStart(w, k) .. ColumnStart(w, k) + w] == Spaces(w - |row[k]|) + row[k]
    ensures DataLine(w, row)[ColumnStart(w, k) + w .. ColumnStart(w, k) + w + |Divider|] == Divider
  {
    hide *;
    DataLineDef(w, row);
    LineColumn(Right, w, row, k);
    RightFieldShape(w, row[k]);
    SliceParts(DataLine(w, row), ColumnStart(w, k), Spaces(w - |row[k]|) + row[k], Divider);
  }

  /**
   * The table has |rows| + 4 lines: rule, header line, rule, one line per
   * row in insertion order, rule; and every one of them is SepCount long.
   */
  lemma RenderShape(hs: seq<string>, rows: seq<seq<string>>)
    requires WellFormed(hs, rows)
    ensures var w := ColumnWidth(hs, rows);
            var lines := RenderLines(hs, rows);
            var rule := Rule(SepCount(w, |hs|));
            |lines| == |rows| + 4
            && lines[0] == rule && lines[1] == HeaderLine(w, hs) && lines[2] == rule
            && (forall i :: 0 <= i < |rows| ==> lines[3 + i] == DataLine(w, rows[i]))
            && lines[|rows| + 3] == rule
            && (forall i :: 0 <= i < |lines| ==> |lines[i]| == SepCount(w, |hs|))
  {
    hide Field, FieldList, Join, Fields, HeaderLine, DataLine, Repeat, Spaces, Rule, ScanRows, ScanHeaders;
    var w := ColumnWidth(hs, rows);
    var lines := RenderLines(hs, rows);
    SepCountIsSpan(w, |hs|);
    HeaderLineDef(w, hs);
    FieldsLength(Centred, w, hs);
    forall i | 0 <= i < |rows| ensures |DataLine(w, rows[i])| == SepCount(w, |hs|) {
      DataLineDef(w, rows[i]);
      FieldsLength(Right, w, rows[i]);
    }
    assert forall i :: 3 <= i < |rows| + 3 ==> lines[i] == DataLine(w, rows[i - 3]);
  }

  /**
   * When no header or cell contains a newline, splitting the rendered
   * string at its newlines gives back exactly the lines of RenderLines.
   */
  lemma RenderSplit(hs: seq<string>, rows: seq<seq<string>>)
    requires forall i :: 0 <= i < |hs| ==> '\n' !in hs[i]
    requires forall i, j :: 0 <= i < |rows| && 0 <= j < |rows[i]| ==> '\n' !in rows[i][j]
    ensures SplitLines(Render(hs, rows)) == RenderLines(hs, rows)
  {
    hide Field, FieldList, Join, Fields, HeaderLine, DataLine, Repeat, Spaces, ScanRows, ScanHeaders, SplitLines, JoinLines;
    var w := ColumnWidth(hs, rows);
    var lines := RenderLines(hs, rows);
    RepeatOnly('-', SepCount(w, |hs|));
    HeaderLineDef(w, hs);
    FieldsNoNewline(Centred, w, hs);
    forall i | 0 <= i < |rows| ensures '\n' !in DataLine(w, rows[i]) {
      DataLineDef(w, rows[i]);
      FieldsNoNewline(Right, w, rows[i]);
    }
    assert forall i :: 3 <= i < |rows| + 3 ==> lines[i] == DataLine(w, rows[i - 3]);
    SplitJoinLines(lines);
  }

  // ---------------------------------------------------------------------
  // Emitting the text step by step, as the renderer's loops do.

  method AppendRule(s: string, n: nat) returns (t: string)
    ensures t == s + Rule(n) + "\n"
  {
    t := s;
    var i := 0;
    while i < n
      invariant 0 <= i <= n
      invariant t == s + Rule(i)
    {
      assert Rule(i + 1) == Rule(i) + "-";
      t := t + "-";
      i := i + 1;
    }
    t := t + "\n";
  }

  /** The header text behind its centring spaces. */
  method CenterText(w: int, h: string) returns (temp: string)
    ensures temp == Spaces(Lead(w, h)) + h
  {
    temp := "";
    var centerSpacingCount := (w - |h|) / 2;
    var i := 0;
    while i < centerSpacingCount
      invariant 0 <= i <= Lead(w, h)
      invariant temp == Spaces(i)
    {
      assert Spaces(i + 1) == Spaces(i) + " ";
      temp := temp + " ";
      i := i + 1;
    }
    temp := temp + h;
  }

  method AppendHeaderLine(s: string, w: int, hs: seq<string>) returns (t: string)
    ensures t == s + HeaderLine(w, hs) + "\n"
  {
    hide FieldList, Join, Fields, HeaderLine, Repeat, Spaces, LeftJustify;
    HeaderLineDef(w, hs);
    FieldsEmpty(Centred, w);
    assert hs[..0] == [];
    t := s + Divider;
    var c := 0;
    while c < |hs|
      invariant 0 <= c <= |hs|
      invariant t == s + Divider + Fields(Centred, w, hs[..c])
    {
      var temp := CenterText(w, hs[c]);
      FieldsSnoc(Centred, w, hs, c);
      t := t + (LeftJustify(temp, w) + Divider);
      c := c + 1;
    }
    assert hs[..c] == hs;
    t := t + "\n";
  }

  method AppendDataLine(s: string, w: int, row: seq<string>) returns (t: string)
    ensures t == s + DataLine(w, row) + "\n"
  {
    hide FieldList, Join, Fields, DataLine, Repeat, Spaces, RightJustify;
    DataLineDef(w, row);
    FieldsEmpty(Right, w);
    assert row[..0] == [];
    t := s + Divider;
    var c := 0;
    while c < |row|
      invariant 0 <= c <= |row|
      invariant t == s + Divider + Fields(Right, w, row[..c])
    {
      FieldsSnoc(Right, w, row, c);
      t := t + (RightJustify(row[c], w) + Divider);
      c := c + 1;
    }
    assert row[..c] == row;
    t := t + "\n";
  }

  /** The rule, the header line and the rule again. */
  method AppendTop(w: int, hs: seq<string>, sepCount: nat) returns (s: string)
    ensures s == JoinLines([Rule(sepCount), HeaderLine(w, hs), Rule(sepCount)])
  {
    hide Field, FieldList, Join, Fields, HeaderLine, Repeat, Spaces, Rule;
    ghost var rule := Rule(sepCount);
    s := AppendRule("", sepCount);
    assert s == JoinLines([rule]);
    s := AppendHeaderLine(s, w, hs);
    JoinLinesSnoc([rule], HeaderLine(w, hs));
    s := AppendRule(s, sepCount);
    JoinLinesSnoc([rule, HeaderLine(w, hs)], rule);
  }

  /** One data line per row, in insertion order. */
  method AppendDataLines(s: string, w: int, rows: seq<seq<string>>) returns (t: string)
    ensures t == s + JoinLines(DataLines(w, rows))
  {
    hide Field, FieldList, Join, Fields, DataLine, Repeat, Spaces;
    t := s;
    var k := 0;
    while k < |rows|
      invariant 0 <= k <= |rows|
      invariant t == s + JoinLines(DataLines(w, rows[..k]))
    {
      assert rows[..k + 1][..k] == rows[..k];
      JoinLinesSnoc(DataLines(w, rows[..k]), DataLine(w, rows[k]));
      t := AppendDataLine(t, w, rows[k]);
      k := k + 1;
    }
    assert rows[..k] == rows;
  }

  // ---------------------------------------------------------------------
  // The stateful container.

  class Table {
    /** The template arity: number of columns. */
    const cols: nat
    /** The header array, updated in place by the setters. */
    const headers: array<string>
    /** The pushed rows, in insertion order. */
    var rows: seq<seq<string>>

    ghost predicate Valid()
      reads this, headers
    {
      headers.Length == cols && WellFormed(headers[..], rows)
    }

    /** An empty table: empty header strings and no rows. */
    constructor (cols: nat)
      ensures Valid() && fresh(headers)
      ensures this.cols == cols
      ensures headers[..] == seq(cols, _ => "") && rows == []
    {
      this.cols := cols;
      headers := new string[cols](_ => "");
      rows := [];
    }

    method SetHeader(index: int, title: string)
      requires Valid() && 0 <= index < cols
      modifies headers
      ensures Valid()
      ensures headers[..] == old(headers[..])[index := title]
      ensures rows == old(rows)
    {
      headers[index] := title;
    }

    method SetHeaders(hs: seq<string>)
      requires Valid() && |hs| == cols
      modifies headers
      ensures Valid()
      ensures headers[..] == hs
      ensures rows == old(rows)
    {
      forall i | 0 <= i < cols {
        headers[i] := hs[i];
      }
    }

    method PushRow(row: seq<string>)
      requires Valid() && |row| == cols
      modifies this
      ensures Valid()
      ensures rows == old(rows) + [row]
      ensures headers[..] == old(headers[..])
    {
      rows := rows + [row];
    }

    /** The sizing pass: r = -1 scans the headers, then every row in order. */
    method MeasureWidth() returns (w: int)
      requires Valid()
      ensures w == ColumnWidth(headers[..], rows)
    {
      w := InitialWidth;
      var r := -1;
      while r < |rows|
        invariant -1 <= r <= |rows|
        invariant w == if r < 0 then InitialWidth else ScanRows(ScanHeaders(InitialWidth, headers[..]), rows[..r])
      {
        if r < 0 {
          var c := 0;
          while c < cols
            invariant 0 <= c <= cols
            invariant w == ScanHeaders(InitialWidth, headers[..c])
          {
            assert headers[..c + 1][..c] == headers[..c];
            var slen := |headers[c]|;
            if slen > w {
              w := slen + MinColumnGutter;
            }
            c := c + 1;
          }
          assert headers[..cols] == headers[..];
        } else {
          ghost var before := w;
          var c := 0;
          while c < cols
            invariant 0 <= c <= cols
            invariant w == ScanCells(before, rows[r][..c])
          {
            assert rows[r][..c + 1][..c] == rows[r][..c];
            var slen := |rows[r][c]|;
            if slen > w {
              w := slen + MinColumnSizing;
            }
            c := c + 1;
          }
          assert rows[r][..cols] == rows[r];
          assert rows[..r + 1][..r] == rows[..r];
        }
        r := r + 1;
      }
      assert rows[..|rows|] == rows;
    }

    /** Renders the table; reads the state and changes nothing. */
    method BuildAscii() returns (s: string)
      requires Valid()
      ensures s == Render(headers[..], rows)
    {
      var w := MeasureWidth();
      var sepCount := w * cols + cols * |Divider| + |Divider|;
      s := AppendTop(w, headers[..], sepCount);
      s := AppendDataLines(s, w, rows);
      s := AppendRule(s, sepCount);
      ghost var top := [Rule(sepCount), HeaderLine(w, headers[..]), Rule(sepCount)];
      JoinLinesAppend(top, DataLines(w, rows));
      JoinLinesSnoc(top + DataLines(w, rows), Rule(sepCount));
    }

    /** Two consecutive renders of the same table give the same string. */
    method RenderTwice() returns (first: string, second: string)
      requires Valid()
      ensures first == second
    {
      first := BuildAscii();
      second := BuildAscii();
    }
  }
}
