/** The text tables the server sends: one line of headers, a rule, one line per row. */
module TableText {
  import opened Values
  import opened Text
  import opened RowMap
  import opened Tables

  const CUT: nat := 255

  // ---- Layout ----

  function Repeat(c: char, n: nat): (s: string)
    ensures |s| == n && forall i :: 0 <= i < n ==> s[i] == c
  {
    seq(n, _ => c)
  }

  /** A cell padded to its column: " text   |". */
  function PaddedCell(cell: string, width: nat): (s: string)
    requires |cell| <= width
    ensures |s| == width + 3
  {
    " " + (cell + (Repeat(' ', width - |cell|) + " |"))
  }

  ghost predicate Fits(cells: seq<string>, widths: seq<nat>) {
    |cells| == |widths| && forall j :: 0 <= j < |cells| ==> |cells[j]| <= widths[j]
  }

  function PaddedCells(cells: seq<string>, widths: seq<nat>): string
    requires Fits(cells, widths)
  {
    if cells == [] then [] else PaddedCell(cells[0], widths[0]) + PaddedCells(cells[1..], widths[1..])
  }

  function Line(cells: seq<string>, widths: seq<nat>): string
    requires Fits(cells, widths)
  {
    "|" + (PaddedCells(cells, widths) + "\n")
  }

  function Rules(widths: seq<nat>): string {
    if widths == [] then [] else "-" + (Repeat('-', widths[0]) + "-|") + Rules(widths[1..])
  }

  function RuleLine(widths: seq<nat>): string {
    "|" + (Rules(widths) + "\n")
  }

  ghost predicate AllFit(rows: seq<seq<string>>, widths: seq<nat>) {
    forall r :: 0 <= r < |rows| ==> Fits(rows[r], widths)
  }

  function Lines(rows: seq<seq<string>>, widths: seq<nat>): string
    requires AllFit(rows, widths)
  {
    if rows == [] then [] else Line(rows[0], widths) + Lines(rows[1..], widths)
  }

  function Render(headers: seq<string>, rows: seq<seq<string>>, widths: seq<nat>): string
    requires Fits(headers, widths) && AllFit(rows, widths)
  {
    Line(headers, widths) + (RuleLine(widths) + Lines(rows, widths))
  }

  function Sum3(widths: seq<nat>): nat {
    if widths == [] then 0 else widths[0] + 3 + Sum3(widths[1..])
  }

  /** The width of every line, without its newline. */
  function LineWidth(widths: seq<nat>): nat {
    1 + Sum3(widths)
  }

  /** The size the server allocates, terminator included. */
  function BufferSize(widths: seq<nat>, rowCount: nat): nat {
    (LineWidth(widths) + 1) * (2 + rowCount) + 1
  }

  lemma {:induction false} PaddedLength(cells: seq<string>, widths: seq<nat>)
    requires Fits(cells, widths)
    ensures |PaddedCells(cells, widths)| == Sum3(widths)
    decreases |cells|
  {
    if cells != [] {
      PaddedLength(cells[1..], widths[1..]);
    }
  }

  lemma {:induction false} RulesLength(widths: seq<nat>)
    ensures |Rules(widths)| == Sum3(widths)
    decreases |widths|
  {
    if widths != [] {
      RulesLength(widths[1..]);
    }
  }

  lemma {:induction false} LinesLength(rows: seq<seq<string>>, widths: seq<nat>)
    requires AllFit(rows, widths)
    ensures |Lines(rows, widths)| == (LineWidth(widths) + 1) * |rows|
    decreases |rows|
  {
    hide PaddedCells, Sum3;
    if rows == [] {
      assert (LineWidth(widths) + 1) * 0 == 0;
    } else {
      PaddedLength(rows[0], widths);
      LinesLength(rows[1..], widths);
      assert |Line(rows[0], widths)| == LineWidth(widths) + 1;
      OneLineMore(LineWidth(widths) + 1, |rows| - 1);
    }
  }

  lemma {:induction false} OneLineMore(line: nat, n: nat)
    ensures line + line * n == line * (n + 1)
  {
  }

  /** A table is 2 + rows lines of one width each; with its terminator it fills the buffer exactly. */
  lemma {:induction false} RenderLength(headers: seq<string>, rows: seq<seq<string>>, widths: seq<nat>)
    requires Fits(headers, widths) && AllFit(rows, widths)
    ensures |Render(headers, rows, widths)| + 1 == BufferSize(widths, |rows|)
    ensures |Line(headers, widths)| == |RuleLine(widths)| == LineWidth(widths) + 1
  {
    PaddedLength(headers, widths);
    RulesLength(widths);
    LinesLength(rows, widths);
  }

  // ---- Cells and widths ----

  /** A scalar's text; `g` is the C library's %.6g rendering of a double. */
  function ScalarText(d: Data, g: int -> string): string {
    match d
    case IntV(i) => IntText(i)
    case DoubleV(bits) => g(bits)
    case BoolV(b) => if b then "true" else "false"
    case StrV(s) => s
    case _ => "NULL"
  }

  /** An array element's text: strings are quoted. */
  function ElementText(d: Data, k: Kind, g: int -> string): string {
    if k == KString then "\"" + (ScalarText(d, g) + "\"") else ScalarText(d, g)
  }

  function ElementTexts(ds: seq<Data>, k: Kind, g: int -> string): (r: seq<string>)
    ensures |r| == |ds|
  {
    seq(|ds|, i requires 0 <= i < |ds| => ElementText(ds[i], k, g))
  }

  function JoinTexts(parts: seq<string>): string {
    if parts == [] then [] else if |parts| == 1 then parts[0] else parts[0] + (", " + JoinTexts(parts[1..]))
  }

  function ArrayText(ds: seq<Data>, k: Kind, g: int -> string): string {
    "[" + (JoinTexts(ElementTexts(ds, k, g)) + "]")
  }

  /** A cell's full text. */
  function CellText(d: Data, ty: FieldType, g: int -> string): string {
    match ty
    case Scalar(_) => ScalarText(d, g)
    case Array(k) => ArrayText(Elements(d), k, g)
  }

  function Cut(s: string): (r: string)
    ensures |r| <= |s| && |r| <= CUT && r <= s
  {
    if |s| <= CUT then s else s[..CUT]
  }

  /** What is written of a cell: scalars go through a 256-byte buffer, arrays do not. */
  function ShownText(d: Data, ty: FieldType, g: int -> string): string {
    if ty.Scalar? then Cut(CellText(d, ty, g)) else CellText(d, ty, g)
  }

  /** What a cell asks of its column's width: a string counts in full even though it is written cut. */
  function CellWidth(d: Data, ty: FieldType, g: int -> string): nat {
    if ty == Scalar(KString) then |CellText(d, ty, g)| else |ShownText(d, ty, g)|
  }

  const TIME_CREATED: string := "time_created"
  const TIME_UPDATED: string := "time_updated"

  function Headers(fields: seq<Field>): (r: seq<string>)
    ensures |r| == |fields| + 2
  {
    seq(|fields|, j requires 0 <= j < |fields| => fields[j].name) + [TIME_CREATED, TIME_UPDATED]
  }

  /** A row's cells as written, with its timestamps. */
  function ShownRow(fields: seq<Field>, row: Row, g: int -> string): (r: seq<string>)
    requires |row.values| == |fields|
    ensures |r| == |fields| + 2
  {
    seq(|fields|, j requires 0 <= j < |fields| => ShownText(row.values[j], fields[j].ty, g))
    + [IntText(row.created), IntText(row.updated)]
  }

  function FullRow(fields: seq<Field>, row: Row, g: int -> string): (r: seq<string>)
    requires |row.values| == |fields|
    ensures |r| == |fields| + 2
  {
    seq(|fields|, j requires 0 <= j < |fields| => CellText(row.values[j], fields[j].ty, g))
    + [IntText(row.created), IntText(row.updated)]
  }

  /** The width row j asks of each column. */
  function AskedWidths(fields: seq<Field>, row: Row, g: int -> string): (r: seq<nat>)
    requires |row.values| == |fields|
    ensures |r| == |fields| + 2
  {
    seq(|fields|, j requires 0 <= j < |fields| => CellWidth(row.values[j], fields[j].ty, g))
    + [|IntText(row.created)|, |IntText(row.updated)|]
  }

  predicate Shaped(fields: seq<Field>, rows: seq<Row>) {
    forall r :: 0 <= r < |rows| ==> |rows[r].values| == |fields|
  }

  function WidestIn(widths: seq<nat>, asked: seq<nat>): (r: seq<nat>)
    requires |widths| == |asked|
    ensures |r| == |widths|
    ensures forall j :: 0 <= j < |r| ==> widths[j] <= r[j] && asked[j] <= r[j]
  {
    seq(|widths|, j requires 0 <= j < |widths| => if asked[j] > widths[j] then asked[j] else widths[j])
  }

  /** Column widths: the header, or the widest cell. */
  function Widths(fields: seq<Field>, rows: seq<Row>, g: int -> string): (r: seq<nat>)
    requires Shaped(fields, rows)
    ensures |r| == |fields| + 2
    ensures Fits(Headers(fields), r)
    ensures forall i, j :: 0 <= i < |rows| && 0 <= j < |r| ==> AskedWidths(fields, rows[i], g)[j] <= r[j]
    decreases |rows|
  {
    if rows == [] then
      seq(|fields| + 2, j requires 0 <= j < |fields| + 2 => |Headers(fields)[j]|)
    else
      var w := Widths(fields, rows[..|rows| - 1], g);
      var r := WidestIn(w, AskedWidths(fields, rows[|rows| - 1], g));
      assert forall i :: 0 <= i < |rows| - 1 ==> rows[..|rows| - 1][i] == rows[i];
      r
  }

  /** No column is wider than its header and its cells ask for. */
  lemma {:induction false} WidthsTight(fields: seq<Field>, rows: seq<Row>, g: int -> string, j: nat)
    requires Shaped(fields, rows) && j < |fields| + 2
    ensures Widths(fields, rows, g)[j] == |Headers(fields)[j]|
         || exists i :: 0 <= i < |rows| && AskedWidths(fields, rows[i], g)[j] == Widths(fields, rows, g)[j]
    decreases |rows|
  {
    hide CellWidth, IntText, Headers;
    if rows != [] {
      var front, last := rows[..|rows| - 1], |rows| - 1;
      WidthsTight(fields, front, g, j);
      if Widths(fields, rows, g)[j] == AskedWidths(fields, rows[last], g)[j] {
      } else if i :| 0 <= i < |front| && AskedWidths(fields, front[i], g)[j] == Widths(fields, front, g)[j] {
        assert rows[i] == front[i];
      }
    }
  }

  /** A string column is as wide as its longest string in full, although a long one is written cut. */
  lemma {:induction false} StringsCountInFull(fields: seq<Field>, rows: seq<Row>, g: int -> string, i: nat, j: nat)
    requires Shaped(fields, rows) && i < |rows| && j < |fields| && fields[j].ty == Scalar(KString) && rows[i].values[j].StrV?
    ensures Widths(fields, rows, g)[j] >= |rows[i].values[j].s|
  {
    hide Widths;
    assert AskedWidths(fields, rows[i], g)[j] == CellWidth(rows[i].values[j], fields[j].ty, g);
  }

  function ShownRows(fields: seq<Field>, rows: seq<Row>, g: int -> string): (r: seq<seq<string>>)
    requires Shaped(fields, rows)
    ensures |r| == |rows| && forall i :: 0 <= i < |r| ==> r[i] == ShownRow(fields, rows[i], g)
  {
    seq(|rows|, i requires 0 <= i < |rows| => ShownRow(fields, rows[i], g))
  }

  /** Every written cell fits its column, so padding is never negative, cut strings included. */
  lemma {:induction false} CellsFit(fields: seq<Field>, rows: seq<Row>, g: int -> string)
    requires Shaped(fields, rows)
    ensures AllFit(ShownRows(fields, rows, g), Widths(fields, rows, g))
  {
    hide ScalarText, ArrayText, IntText, Headers;
    var shown, widths := ShownRows(fields, rows, g), Widths(fields, rows, g);
    forall r | 0 <= r < |rows|
      ensures Fits(shown[r], widths)
    {
      var asked := AskedWidths(fields, rows[r], g);
      forall j | 0 <= j < |fields| + 2
        ensures |shown[r][j]| <= widths[j]
      {
        assert |shown[r][j]| <= asked[j];
      }
    }
  }

  /** A table of rows, or the notice for none. */
  function FormatRows(fields: seq<Field>, rows: seq<Row>, g: int -> string): string
    requires Shaped(fields, rows)
  {
    if rows == [] then "(No rows)\n"
    else
      CellsFit(fields, rows, g);
      Render(Headers(fields), ShownRows(fields, rows, g), Widths(fields, rows, g))
  }

  // ---- Chosen columns ----

  predicate Indices(idx: seq<nat>, n: nat) {
    forall j :: 0 <= j < |idx| ==> idx[j] < n
  }

  function PickFields(fields: seq<Field>, idx: seq<nat>): (r: seq<Field>)
    requires Indices(idx, |fields|)
    ensures |r| == |idx| && forall j :: 0 <= j < |idx| ==> r[j] == fields[idx[j]]
  {
    seq(|idx|, j requires 0 <= j < |idx| => fields[idx[j]])
  }

  function PickRow(row: Row, idx: seq<nat>): (r: Row)
    requires Indices(idx, |row.values|)
    ensures |r.values| == |idx| && forall j :: 0 <= j < |idx| ==> r.values[j] == row.values[idx[j]]
    ensures r.created == row.created && r.updated == row.updated
  {
    row.(values := seq(|idx|, j requires 0 <= j < |idx| => row.values[idx[j]]))
  }

  function PickRows(rows: seq<Row>, idx: seq<nat>, n: nat): (r: seq<Row>)
    requires Indices(idx, n)
    requires forall i :: 0 <= i < |rows| ==> |rows[i].values| == n
    ensures |r| == |rows| && forall i :: 0 <= i < |r| ==> r[i] == PickRow(rows[i], idx)
  {
    seq(|rows|, i requires 0 <= i < |rows| => PickRow(rows[i], idx))
  }
}
