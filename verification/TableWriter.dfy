/** The server's table writer: a write pointer pushed through a buffer allocated for the exact size. */
module TableWriter {
  import opened Values
  import opened Text
  import opened RowMap
  import opened Tables
  import opened TableText

  // ---- Single writes ----

  /** memcpy or strcpy of a text to the write pointer. */
  method PutText(buf: array<char>, p: nat, s: string) returns (q: nat)
    requires p + |s| <= buf.Length
    modifies buf
    ensures q == p + |s| && buf[..q] == old(buf[..p]) + s
  {
    forall i | 0 <= i < |s| {
      buf[p + i] := s[i];
    }
    q := p + |s|;
    assert buf[..q] == buf[..p] + buf[p..q];
    assert buf[p..q] == s;
  }

  method PutChar(buf: array<char>, p: nat, c: char) returns (q: nat)
    requires p < buf.Length
    modifies buf
    ensures q == p + 1 && buf[..q] == old(buf[..p]) + [c]
  {
    buf[p] := c;
    q := p + 1;
    assert buf[..q] == buf[..p] + [c];
  }

  /** The padding loops. */
  method PutRun(buf: array<char>, p: nat, c: char, n: nat) returns (q: nat)
    requires p + n <= buf.Length
    modifies buf
    ensures q == p + n && buf[..q] == old(buf[..p]) + Repeat(c, n)
  {
    q := p;
    for j := 0 to n
      invariant q == p + j
      invariant buf[..q] == old(buf[..p]) + Repeat(c, j)
    {
      buf[q] := c;
      q := q + 1;
      assert buf[..q] == buf[..q - 1] + [c];
      assert Repeat(c, j + 1) == Repeat(c, j) + [c];
    }
  }

  /** One padded cell, newline excluded. */
  method PutCell(buf: array<char>, p: nat, cell: string, width: nat) returns (q: nat)
    requires |cell| <= width && p + width + 3 <= buf.Length
    modifies buf
    ensures q == p + width + 3 && buf[..q] == old(buf[..p]) + PaddedCell(cell, width)
  {
    q := PutChar(buf, p, ' ');
    q := PutText(buf, q, cell);
    q := PutRun(buf, q, ' ', width - |cell|);
    q := PutChar(buf, q, ' ');
    q := PutChar(buf, q, '|');
    CellPieces(old(buf[..p]), cell, width);
  }

  lemma {:induction false} CellPieces(before: string, cell: string, width: nat)
    requires |cell| <= width
    ensures before + " " + cell + Repeat(' ', width - |cell|) + " " + "|" == before + PaddedCell(cell, width)
  {
  }

  /** One column of the rule under the headers. */
  method PutRule(buf: array<char>, p: nat, width: nat) returns (q: nat)
    requires p + width + 3 <= buf.Length
    modifies buf
    ensures q == p + width + 3 && buf[..q] == old(buf[..p]) + ("-" + (Repeat('-', width) + "-|"))
  {
    q := PutChar(buf, p, '-');
    q := PutRun(buf, q, '-', width);
    q := PutChar(buf, q, '-');
    q := PutChar(buf, q, '|');
    RulePieces(old(buf[..p]), width);
  }

  lemma {:induction false} RulePieces(before: string, width: nat)
    ensures before + "-" + Repeat('-', width) + "-" + "|" == before + ("-" + (Repeat('-', width) + "-|"))
  {
  }

  // ---- Growing a line by one column ----

  lemma {:induction false} PaddedGrows(cells: seq<string>, widths: seq<nat>, i: nat)
    requires Fits(cells, widths) && i < |cells|
    ensures Fits(cells[..i], widths[..i]) && Fits(cells[..i + 1], widths[..i + 1])
    ensures PaddedCells(cells[..i + 1], widths[..i + 1])
         == PaddedCells(cells[..i], widths[..i]) + PaddedCell(cells[i], widths[i])
  {
    if i > 0 {
      PaddedGrows(cells[1..], widths[1..], i - 1);
      assert cells[..i + 1][1..] == cells[1..][..i] && cells[..i][1..] == cells[1..][..i - 1];
      assert widths[..i + 1][1..] == widths[1..][..i] && widths[..i][1..] == widths[1..][..i - 1];
      ConcatAssociates(PaddedCell(cells[0], widths[0]), PaddedCells(cells[..i][1..], widths[..i][1..]),
        PaddedCell(cells[i], widths[i]));
    } else {
      assert cells[..1][1..] == [] && widths[..1][1..] == [];
    }
  }

  lemma {:induction false} RulesGrow(widths: seq<nat>, i: nat)
    requires i < |widths|
    ensures Rules(widths[..i + 1]) == Rules(widths[..i]) + ("-" + (Repeat('-', widths[i]) + "-|"))
  {
    if i > 0 {
      RulesGrow(widths[1..], i - 1);
      assert widths[..i + 1][1..] == widths[1..][..i] && widths[..i][1..] == widths[1..][..i - 1];
      ConcatAssociates("-" + (Repeat('-', widths[0]) + "-|"), Rules(widths[..i][1..]),
        "-" + (Repeat('-', widths[i]) + "-|"));
    } else {
      assert widths[..1][1..] == [];
    }
  }

  lemma {:induction false} SumGrows(widths: seq<nat>, i: nat)
    requires i < |widths|
    ensures Sum3(widths[..i + 1]) == Sum3(widths[..i]) + widths[i] + 3
    ensures Sum3(widths[..i + 1]) <= Sum3(widths)
  {
    if i > 0 {
      SumGrows(widths[1..], i - 1);
      assert widths[..i + 1][1..] == widths[1..][..i] && widths[..i][1..] == widths[1..][..i - 1];
    } else {
      assert widths[..1][1..] == [];
    }
  }

  // ---- Lines ----

  /** The header line. */
  method PutLine(buf: array<char>, p: nat, cells: seq<string>, widths: seq<nat>) returns (q: nat)
    requires Fits(cells, widths)
    requires p + LineWidth(widths) + 1 <= buf.Length
    modifies buf
    ensures q == p + LineWidth(widths) + 1 && buf[..q] == old(buf[..p]) + Line(cells, widths)
  {
    hide PaddedCells, Sum3;
    q := PutChar(buf, p, '|');
    assert PaddedCells([], []) == [] && Sum3([]) == 0 by { EmptyLine(); }
    assert cells[..0] == [] && widths[..0] == [];
    for i := 0 to |cells|
      invariant q == p + 1 + Sum3(widths[..i]) <= buf.Length
      invariant Fits(cells[..i], widths[..i])
      invariant buf[..q] == old(buf[..p]) + "|" + PaddedCells(cells[..i], widths[..i])
    {
      SumGrows(widths, i);
      PaddedGrows(cells, widths, i);
      q := PutCell(buf, q, cells[i], widths[i]);
      ConcatAssociates(old(buf[..p]) + "|", PaddedCells(cells[..i], widths[..i]), PaddedCell(cells[i], widths[i]));
    }
    assert cells[..|cells|] == cells && widths[..|cells|] == widths;
    q := PutChar(buf, q, '\n');
    LinePieces(old(buf[..p]), PaddedCells(cells, widths));
  }

  lemma {:induction false} EmptyLine()
    ensures PaddedCells([], []) == [] && Sum3([]) == 0 && Rules([]) == []
  {
  }

  lemma {:induction false} LinePieces(before: string, body: string)
    ensures before + "|" + body + "\n" == before + ("|" + (body + "\n"))
  {
  }

  method PutRuleLine(buf: array<char>, p: nat, widths: seq<nat>) returns (q: nat)
    requires p + LineWidth(widths) + 1 <= buf.Length
    modifies buf
    ensures q == p + LineWidth(widths) + 1 && buf[..q] == old(buf[..p]) + RuleLine(widths)
  {
    hide Rules, Sum3;
    q := PutChar(buf, p, '|');
    assert Rules([]) == [] && Sum3([]) == 0 by { EmptyLine(); }
    assert widths[..0] == [];
    for i := 0 to |widths|
      invariant q == p + 1 + Sum3(widths[..i]) <= buf.Length
      invariant buf[..q] == old(buf[..p]) + "|" + Rules(widths[..i])
    {
      SumGrows(widths, i);
      RulesGrow(widths, i);
      q := PutRule(buf, q, widths[i]);
      ConcatAssociates(old(buf[..p]) + "|", Rules(widths[..i]), "-" + (Repeat('-', widths[i]) + "-|"));
    }
    assert widths[..|widths|] == widths;
    q := PutChar(buf, q, '\n');
    LinePieces(old(buf[..p]), Rules(widths));
  }

  // ---- Array cells ----

  /** realloc to a larger capacity. */
  method Grow(buf: array<char>, pos: nat, cap: nat) returns (bigger: array<char>)
    requires pos <= buf.Length <= cap
    ensures fresh(bigger) && bigger.Length == cap && bigger[..pos] == buf[..pos]
  {
    bigger := new char[cap](_ => '\0');
    forall i | 0 <= i < pos {
      bigger[i] := buf[i];
    }
  }

  lemma {:induction false} JoinGrows(parts: seq<string>, i: nat)
    requires i < |parts|
    ensures JoinTexts(parts[..i + 1])
         == JoinTexts(parts[..i]) + (if i > 0 then ", " else "") + parts[i]
  {
    if i > 0 {
      JoinGrows(parts[1..], i - 1);
      assert parts[..i + 1][1..] == parts[1..][..i] && parts[..i][1..] == parts[1..][..i - 1];
      if i > 1 {
        JoinPieces(parts[0], JoinTexts(parts[1..][..i - 1]), parts[i]);
      } else {
        assert parts[1..][..0] == [] && parts[..1] == [parts[0]];
        assert JoinTexts(parts[1..][..1]) == parts[1];
      }
    } else {
      assert parts[..1] == [parts[0]] && parts[..0] == [];
    }
  }

  lemma {:induction false} JoinPieces(first: string, middle: string, last: string)
    ensures first + (", " + (middle + ", " + last)) == first + (", " + middle) + ", " + last
  {
  }

  /** The slack the growth test leaves after an element: quotes and terminator for a string, separator and end otherwise. */
  function Slack(k: Kind): nat {
    if k == KString then 6 else 4
  }

  /**
   * Write one element at pos, growing the buffer when the test asks for it. Four free
   * places always remain: enough for a separator or for the closing bracket and NUL.
   */
  method PutElement(buf: array<char>, pos: nat, e: Data, k: Kind, g: int -> string)
    returns (into: array<char>, q: nat)
    requires pos <= buf.Length && 0 < buf.Length
    modifies buf
    ensures into == buf || fresh(into)
    ensures q == pos + |ElementText(e, k, g)| && q + 4 < into.Length
    ensures into[..q] == old(buf[..pos]) + ElementText(e, k, g)
  {
    var text := ScalarText(e, g);
    into := buf;
    if pos + |text| + Slack(k) >= buf.Length {
      into := Grow(buf, pos, buf.Length * 2 + |text| + Slack(k));
    }
    if k == KString {
      q := PutChar(into, pos, '"');
      q := PutText(into, q, text);
      q := PutChar(into, q, '"');
      into[q] := '\0';
      QuotePieces(old(buf[..pos]), text);
    } else {
      q := PutText(into, pos, text);
    }
  }

  lemma {:induction false} QuotePieces(before: string, text: string)
    ensures before + "\"" + text + "\"" == before + ("\"" + (text + "\""))
  {
  }

  /** The bracketed text of an array value, its terminator included in the buffer. */
  method ArrayValueToStr(elements: seq<Data>, k: Kind, g: int -> string) returns (text: string)
    ensures text == ArrayText(elements, k, g)
  {
    if elements == [] {
      assert ArrayText(elements, k, g) == "[]";
      return "[]";
    }
    ghost var parts := ElementTexts(elements, k, g);
    var buf := new char[|elements| * 66 + 4](_ => '\0');
    var pos: nat := PutChar(buf, 0, '[');
    assert parts[..0] == [];
    for i := 0 to |elements|
      invariant fresh(buf) && pos + 4 < buf.Length
      invariant buf[..pos] == "[" + JoinTexts(parts[..i])
    {
      ghost var before := JoinTexts(parts[..i]);
      if i > 0 {
        pos := PutChar(buf, pos, ',');
        pos := PutChar(buf, pos, ' ');
        assert buf[..pos] == "[" + before + ", ";
      }
      assert buf[..pos] == "[" + before + (if i > 0 then ", " else "");
      buf, pos := PutElement(buf, pos, elements[i], k, g);
      JoinGrows(parts, i);
      BracketPieces(before, if i > 0 then ", " else "", parts[i]);
    }
    assert parts[..|elements|] == parts;
    pos := PutChar(buf, pos, ']');
    buf[pos] := '\0';
    text := buf[..pos];
    assert text == "[" + JoinTexts(parts) + "]";
    ConcatAssociates("[", JoinTexts(parts), "]");
  }

  lemma {:induction false} BracketPieces(before: string, separator: string, part: string)
    ensures "[" + before + separator + part == "[" + (before + separator + part)
  {
  }

  // ---- Widths ----

  /** What build_data_row writes for one value. */
  method ValueText(d: Data, ty: FieldType, g: int -> string) returns (text: string)
    ensures text == ShownText(d, ty, g)
  {
    match ty
    case Scalar(_) =>
      text := ScalarText(d, g);
      if |text| > CUT {
        text := text[..CUT];
      }
    case Array(k) =>
      text := ArrayValueToStr(Elements(d), k, g);
  }

  /** The length the width pass counts for one value. */
  method ValueLength(d: Data, ty: FieldType, g: int -> string) returns (n: nat)
    ensures n == CellWidth(d, ty, g)
  {
    if ty == Scalar(KString) {
      n := if d.StrV? then |d.s| else |ScalarText(d, g)|;
    } else {
      var text := ValueText(d, ty, g);
      n := |text|;
    }
  }

  lemma {:induction false} WidthsGrow(fields: seq<Field>, rows: seq<Row>, r: nat, g: int -> string)
    requires Shaped(fields, rows) && r < |rows|
    ensures Shaped(fields, rows[..r]) && Shaped(fields, rows[..r + 1])
    ensures Widths(fields, rows[..r + 1], g)
         == WidestIn(Widths(fields, rows[..r], g), AskedWidths(fields, rows[r], g))
  {
    assert rows[..r + 1][..r] == rows[..r];
  }

  /** One column's width: its header, then the maximum over all rows. */
  method ColumnWidth(fields: seq<Field>, rows: seq<Row>, j: nat, g: int -> string) returns (w: nat)
    requires Shaped(fields, rows) && j < |fields|
    ensures w == Widths(fields, rows, g)[j]
  {
    hide CellWidth, IntText;
    w := |fields[j].name|;
    for r := 0 to |rows|
      invariant Shaped(fields, rows[..r])
      invariant w == Widths(fields, rows[..r], g)[j]
    {
      WidthsGrow(fields, rows, r, g);
      var n := ValueLength(rows[r].values[j], fields[j].ty, g);
      assert AskedWidths(fields, rows[r], g)[j] == n;
      if n > w {
        w := n;
      }
    }
    assert rows[..|rows|] == rows;
  }

  /** The widths of the two timestamp columns. */
  method TimestampWidths(fields: seq<Field>, rows: seq<Row>, g: int -> string) returns (created: nat, updated: nat)
    requires Shaped(fields, rows)
    ensures created == Widths(fields, rows, g)[|fields|]
    ensures updated == Widths(fields, rows, g)[|fields| + 1]
  {
    hide CellWidth, IntText;
    created, updated := |TIME_CREATED|, |TIME_UPDATED|;
    for r := 0 to |rows|
      invariant Shaped(fields, rows[..r])
      invariant created == Widths(fields, rows[..r], g)[|fields|]
      invariant updated == Widths(fields, rows[..r], g)[|fields| + 1]
    {
      WidthsGrow(fields, rows, r, g);
      ghost var asked := AskedWidths(fields, rows[r], g);
      var n := |IntText(rows[r].created)|;
      assert asked[|fields|] == n;
      if n > created {
        created := n;
      }
      n := |IntText(rows[r].updated)|;
      assert asked[|fields| + 1] == n;
      if n > updated {
        updated := n;
      }
    }
    assert rows[..|rows|] == rows;
  }

  /** All widths and the width of a line. */
  method MeasureColumns(fields: seq<Field>, rows: seq<Row>, g: int -> string)
    returns (widths: seq<nat>, lineWidth: nat)
    requires Shaped(fields, rows)
    ensures widths == Widths(fields, rows, g) && lineWidth == LineWidth(widths)
  {
    hide Widths, Sum3, Headers;
    widths, lineWidth := [], 1;
    ghost var all := Widths(fields, rows, g);
    assert Sum3([]) == 0 by { EmptyLine(); }
    assert all[..0] == [];
    for i := 0 to |fields|
      invariant widths == all[..i] && lineWidth == 1 + Sum3(all[..i])
    {
      var w := ColumnWidth(fields, rows, i, g);
      widths, lineWidth := widths + [w], lineWidth + w + 3;
      SumGrows(all, i);
    }
    var created, updated := TimestampWidths(fields, rows, g);
    SumGrows(all, |fields|);
    SumGrows(all, |fields| + 1);
    widths := widths + [created, updated];
    lineWidth := lineWidth + (created + 3) + (updated + 3);
    assert all[..|fields| + 2] == all;
  }

  // ---- The whole table ----

  method PutHeader(buf: array<char>, p: nat, headers: seq<string>, widths: seq<nat>) returns (q: nat)
    requires Fits(headers, widths)
    requires p + 2 * (LineWidth(widths) + 1) <= buf.Length
    modifies buf
    ensures q == p + 2 * (LineWidth(widths) + 1)
    ensures buf[..q] == old(buf[..p]) + (Line(headers, widths) + RuleLine(widths))
  {
    hide Line, RuleLine, LineWidth;
    q := PutLine(buf, p, headers, widths);
    q := PutRuleLine(buf, q, widths);
    ConcatAssociates(old(buf[..p]), Line(headers, widths), RuleLine(widths));
  }

  /** A data line: the chosen columns, then the two timestamps. */
  method PutRow(buf: array<char>, p: nat, fields: seq<Field>, row: Row, widths: seq<nat>, g: int -> string) returns (q: nat)
    requires |row.values| == |fields| && Fits(ShownRow(fields, row, g), widths)
    requires p + LineWidth(widths) + 1 <= buf.Length
    modifies buf
    ensures q == p + LineWidth(widths) + 1
    ensures buf[..q] == old(buf[..p]) + Line(ShownRow(fields, row, g), widths)
  {
    hide PaddedCells, PaddedCell, Sum3, ShownText, IntText;
    ghost var cells := ShownRow(fields, row, g);
    ghost var start := old(buf[..p]) + "|";
    q := PutChar(buf, p, '|');
    EmptyLine();
    assert cells[..0] == [] && widths[..0] == [];
    for i := 0 to |fields|
      invariant q == p + 1 + Sum3(widths[..i]) <= buf.Length
      invariant Fits(cells[..i], widths[..i])
      invariant buf[..q] == start + PaddedCells(cells[..i], widths[..i])
    {
      SumGrows(widths, i);
      PaddedGrows(cells, widths, i);
      var text := ValueText(row.values[i], fields[i].ty, g);
      assert text == cells[i];
      q := PutCell(buf, q, text, widths[i]);
      ConcatAssociates(start, PaddedCells(cells[..i], widths[..i]), PaddedCell(cells[i], widths[i]));
    }
    var n := |fields|;
    SumGrows(widths, n);
    SumGrows(widths, n + 1);
    PaddedGrows(cells, widths, n);
    PaddedGrows(cells, widths, n + 1);
    assert cells[..n + 2] == cells && widths[..n + 2] == widths;
    q := PutCell(buf, q, IntText(row.created), widths[n]);
    ConcatAssociates(start, PaddedCells(cells[..n], widths[..n]), PaddedCell(cells[n], widths[n]));
    q := PutCell(buf, q, IntText(row.updated), widths[n + 1]);
    ConcatAssociates(start, PaddedCells(cells[..n + 1], widths[..n + 1]), PaddedCell(cells[n + 1], widths[n + 1]));
    q := PutChar(buf, q, '\n');
    LinePieces(old(buf[..p]), PaddedCells(cells, widths));
  }

  lemma {:induction false} LinesGrow(rows: seq<seq<string>>, widths: seq<nat>, i: nat)
    requires AllFit(rows, widths) && i < |rows|
    ensures Lines(rows[..i + 1], widths) == Lines(rows[..i], widths) + Line(rows[i], widths)
  {
    hide Line;
    if i > 0 {
      LinesGrow(rows[1..], widths, i - 1);
      assert rows[..i + 1][1..] == rows[1..][..i] && rows[..i][1..] == rows[1..][..i - 1];
      ConcatAssociates(Line(rows[0], widths), Lines(rows[..i][1..], widths), Line(rows[i], widths));
    } else {
      assert rows[..1][1..] == [];
    }
  }

  /** Lines of one width stay below the size the buffer was allocated for. */
  lemma {:induction false} RoomForRow(line: nat, r: nat, count: nat)
    requires r < count
    ensures line * r + line == line * (r + 1) <= line * count
  {
    assert line * count == line * (r + 1) + line * (count - r - 1);
  }

  /** format_rows_as_table, format_row_as_table and format_search_results. */
  method FormatTable(fields: seq<Field>, idx: seq<nat>, rows: seq<Row>, g: int -> string) returns (text: string)
    requires Indices(idx, |fields|) && Shaped(fields, rows)
    ensures text == FormatRows(PickFields(fields, idx), PickRows(rows, idx, |fields|), g)
  {
    if rows == [] {
      return "(No rows)\n";
    }
    text := WriteTable(PickFields(fields, idx), PickRows(rows, idx, |fields|), g);
  }

  /** The rows after the header, each line right behind the one before. */
  method PutRows(buf: array<char>, start: nat, fields: seq<Field>, rows: seq<Row>, widths: seq<nat>, g: int -> string)
    returns (ptr: nat)
    requires Shaped(fields, rows) && AllFit(ShownRows(fields, rows, g), widths)
    requires start + (LineWidth(widths) + 1) * |rows| <= buf.Length
    modifies buf
    ensures ptr == start + (LineWidth(widths) + 1) * |rows|
    ensures buf[..ptr] == old(buf[..start]) + Lines(ShownRows(fields, rows, g), widths)
  {
    hide ShownRow, Line, LineWidth, Fits;
    ghost var shown := ShownRows(fields, rows, g);
    ghost var top := old(buf[..start]);
    var line := LineWidth(widths) + 1;
    ptr := start;
    assert shown[..0] == [];
    for r := 0 to |rows|
      invariant ptr == start + line * r <= buf.Length
      invariant buf[..ptr] == top + Lines(shown[..r], widths)
    {
      RoomForRow(line, r, |rows|);
      ptr := PutRow(buf, ptr, fields, rows[r], widths, g);
      LinesGrow(shown, widths, r);
      ConcatAssociates(top, Lines(shown[..r], widths), Line(shown[r], widths));
    }
    assert shown[..|rows|] == shown;
  }

  lemma {:induction false} SizeSplits(line: nat, count: nat)
    ensures line * (2 + count) == 2 * line + line * count
  {
  }

  /** The write pointer ends on the last byte of the buffer, where the terminator goes. */
  method WriteTable(fields: seq<Field>, rows: seq<Row>, g: int -> string) returns (text: string)
    requires Shaped(fields, rows) && rows != []
    ensures text == FormatRows(fields, rows, g)
  {
    hide Widths, ShownRows, ShownRow, Headers, Line, RuleLine, LineWidth, Fits, Lines;
    var widths, lineWidth := MeasureColumns(fields, rows, g);
    CellsFit(fields, rows, g);
    SizeSplits(lineWidth + 1, |rows|);
    var buf := new char[(lineWidth + 1) * (2 + |rows|) + 1](_ => '\0');
    var ptr := PutHeader(buf, 0, Headers(fields), widths);
    ptr := PutRows(buf, ptr, fields, rows, widths, g);
    assert ptr == buf.Length - 1;
    buf[ptr] := '\0';
    text := buf[..ptr];
    ConcatAssociates(Line(Headers(fields), widths), RuleLine(widths), Lines(ShownRows(fields, rows, g), widths));
  }
}
