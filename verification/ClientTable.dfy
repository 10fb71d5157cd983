/** The client's table reader. */
module ClientTable {

  /** The characters String.prototype.trim removes. */
  predicate IsJsSpace(c: char) {
    var n := c as int;
    || 9 <= n <= 13 || n == 32 || n == 0xA0 || n == 0x1680 || 0x2000 <= n <= 0x200A
    || n == 0x2028 || n == 0x2029 || n == 0x202F || n == 0x205F || n == 0x3000 || n == 0xFEFF
  }

  function TrimStart(s: string): string {
    if s != [] && IsJsSpace(s[0]) then TrimStart(s[1..]) else s
  }

  function TrimEnd(s: string): string {
    if s != [] && IsJsSpace(s[|s| - 1]) then TrimEnd(s[..|s| - 1]) else s
  }

  function Trim(s: string): string {
    TrimEnd(TrimStart(s))
  }

  /** split on a single character: never empty. */
  function SplitOn(s: string, c: char): (r: seq<string>)
    ensures r != []
  {
    if s == [] then [[]]
    else
      var rest := SplitOn(s[1..], c);
      if s[0] == c then [[]] + rest else [[s[0]] + rest[0]] + rest[1..]
  }

  function DropCarriageReturn(s: string): string {
    if s != [] && s[|s| - 1] == '\r' then s[..|s| - 1] else s
  }

  /** split on a newline with an optional carriage return before it, then trim. */
  function TrimmedLines(pieces: seq<string>): seq<string>
    requires pieces != []
  {
    if |pieces| == 1 then [Trim(pieces[0])]
    else [Trim(DropCarriageReturn(pieces[0]))] + TrimmedLines(pieces[1..])
  }

  function NonEmpty(lines: seq<string>): seq<string> {
    if lines == [] then [] else (if lines[0] == [] then [] else [lines[0]]) + NonEmpty(lines[1..])
  }

  function LinesOf(raw: string): seq<string> {
    NonEmpty(TrimmedLines(SplitOn(raw, '\n')))
  }

  function TrimAll(cells: seq<string>): (r: seq<string>)
    ensures |r| == |cells|
  {
    seq(|cells|, i requires 0 <= i < |cells| => Trim(cells[i]))
  }

  /** The pieces between the bars of a line that starts and ends with one. */
  function SplitCells(line: string): seq<string> {
    var t := Trim(line);
    if t == [] || t[0] != '|' || t[|t| - 1] != '|' then []
    else
      var pieces := SplitOn(t, '|');
      if |pieces| < 2 then [] else TrimAll(pieces[1..|pieces| - 1])
  }

  const PROTO: string := "__proto__"

  /** Assigning a string property on an object: the prototype accessor ignores strings. */
  function Assign(row: map<string, string>, name: string, value: string): map<string, string> {
    if name == PROTO then row else row[name := value]
  }

  function CellOr(cells: seq<string>, h: nat): string {
    if h < |cells| then cells[h] else ""
  }

  function RowOf(headers: seq<string>, cells: seq<string>, n: nat): map<string, string>
    requires n <= |headers|
  {
    if n == 0 then map[] else Assign(RowOf(headers, cells, n - 1), headers[n - 1], CellOr(cells, n - 1))
  }

  /** Lines without cells are skipped. */
  function RowsOfLines(headers: seq<string>, lines: seq<string>): seq<map<string, string>> {
    if lines == [] then []
    else
      var cells := SplitCells(lines[0]);
      (if cells == [] then [] else [RowOf(headers, cells, |headers|)]) + RowsOfLines(headers, lines[1..])
  }

  datatype Parsed =
    | Parsed(headers: seq<string>, rows: seq<map<string, string>>)
    | Invalid(message: string)

  const MISSING_RULE: string := "Invalid table response: missing header or separator"
  const BAD_HEADER: string := "Invalid table response: malformed header"

  function ParseTable(raw: string): Parsed {
    if Trim(raw) == "(No rows)" then Parsed([], [])
    else
      var lines := LinesOf(raw);
      if |lines| < 2 then Invalid(MISSING_RULE)
      else
        var headers := SplitCells(lines[0]);
        if headers == [] then Invalid(BAD_HEADER) else Parsed(headers, RowsOfLines(headers, lines[2..]))
  }

  lemma {:induction false} RowsGrow(headers: seq<string>, lines: seq<string>, i: nat)
    requires i < |lines|
    ensures RowsOfLines(headers, lines[..i + 1])
         == RowsOfLines(headers, lines[..i])
          + (if SplitCells(lines[i]) == [] then [] else [RowOf(headers, SplitCells(lines[i]), |headers|)])
  {
    hide SplitCells, RowOf;
    if i > 0 {
      RowsGrow(headers, lines[1..], i - 1);
      assert lines[..i + 1][1..] == lines[1..][..i] && lines[..i][1..] == lines[1..][..i - 1];
    } else {
      assert lines[..1][1..] == [] && RowsOfLines(headers, []) == [];
    }
  }

  /** parseTable's own loops. */
  method ReadTable(raw: string) returns (r: Parsed)
    ensures r == ParseTable(raw)
  {
    hide LinesOf, SplitCells, Trim, RowsOfLines;
    if Trim(raw) == "(No rows)" {
      return Parsed([], []);
    }
    var lines := LinesOf(raw);
    if |lines| < 2 {
      return Invalid(MISSING_RULE);
    }
    var headers := SplitCells(lines[0]);
    if headers == [] {
      return Invalid(BAD_HEADER);
    }
    var rows: seq<map<string, string>> := [];
    ghost var body := lines[2..];
    assert body[..0] == [];
    NoRows(headers);
    var i := 2;
    while i < |lines|
      invariant 2 <= i <= |lines|
      invariant rows == RowsOfLines(headers, body[..i - 2])
    {
      RowsGrow(headers, body, i - 2);
      assert body[i - 2] == lines[i];
      var cells := SplitCells(lines[i]);
      if cells != [] {
        var row := ReadRow(headers, cells);
        rows := rows + [row];
      }
      i := i + 1;
    }
    assert body[..|lines| - 2] == body;
    r := Parsed(headers, rows);
  }

  lemma {:induction false} NoRows(headers: seq<string>)
    ensures RowsOfLines(headers, []) == []
  {
  }

  method ReadRow(headers: seq<string>, cells: seq<string>) returns (row: map<string, string>)
    ensures row == RowOf(headers, cells, |headers|)
  {
    row := map[];
    for h := 0 to |headers|
      invariant row == RowOf(headers, cells, h)
    {
      row := Assign(row, headers[h], if h < |cells| then cells[h] else "");
    }
  }

  // ---- Array cells ----

  function StripBrackets(raw: string): string {
    var a := if raw != [] && raw[0] == '[' then raw[1..] else raw;
    if a != [] && a[|a| - 1] == ']' then a[..|a| - 1] else a
  }

  /** The pieces with one more character at the front of the first. */
  function Glue(c: char, pieces: seq<string>): (r: seq<string>)
    requires pieces != []
    ensures |r| == |pieces|
  {
    [[c] + pieces[0]] + pieces[1..]
  }

  /** split on comma and space. */
  function SplitComma(s: string): (r: seq<string>)
    ensures r != []
  {
    if |s| >= 2 && s[0] == ',' && s[1] == ' ' then [[]] + SplitComma(s[2..])
    else if s == [] then [[]]
    else Glue(s[0], SplitComma(s[1..]))
  }

  function Unquote(v: string): string {
    if v != [] && v[0] == '"' && v[|v| - 1] == '"' then
      if |v| < 2 then "" else v[1..|v| - 1]
    else v
  }

  function UnquoteAll(vs: seq<string>): (r: seq<string>)
    ensures |r| == |vs|
  {
    seq(|vs|, i requires 0 <= i < |vs| => Unquote(vs[i]))
  }

  function ParseArrayString(raw: string): seq<string> {
    var inner := StripBrackets(raw);
    if inner == [] then [] else UnquoteAll(SplitComma(inner))
  }
}
