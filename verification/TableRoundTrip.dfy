/** What the client reads back from the tables the server writes. */
module TableRoundTrip {
  import opened Values
  import opened Text
  import opened RowMap
  import opened TableText
  import opened ClientTable

  // ---- Trimming ----

  lemma {:induction false} TrimStartAppend(s: string, c: char)
    requires IsJsSpace(c)
    ensures TrimStart(s + [c]) == if TrimStart(s) == [] then [] else TrimStart(s) + [c]
  {
    hide IsJsSpace;
    if s == [] {
      assert ([c])[1..] == [] && s + [c] == [c];
      assert TrimStart([c]) == TrimStart([]);
    } else {
      assert (s + [c])[1..] == s[1..] + [c];
      if IsJsSpace(s[0]) {
        TrimStartAppend(s[1..], c);
      }
    }
  }

  lemma {:induction false} TrimAppend(s: string, c: char)
    requires IsJsSpace(c)
    ensures Trim(s + [c]) == Trim(s)
  {
    hide IsJsSpace;
    TrimStartAppend(s, c);
    var t := TrimStart(s);
    assert (t + [c])[..|t|] == t;
  }

  lemma {:induction false} TrimPrepend(s: string, c: char)
    requires IsJsSpace(c)
    ensures Trim([c] + s) == Trim(s)
  {
    hide IsJsSpace;
    assert ([c] + s)[1..] == s;
  }

  lemma {:induction false} TrimRun(s: string, n: nat)
    ensures Trim(s + Repeat(' ', n)) == Trim(s)
    decreases n
  {
    if n == 0 {
      assert s + Repeat(' ', 0) == s;
    } else {
      assert s + Repeat(' ', n) == (s + Repeat(' ', n - 1)) + [' '];
      TrimAppend(s + Repeat(' ', n - 1), ' ');
      TrimRun(s, n - 1);
    }
  }

  /** Padding does not show. */
  lemma {:induction false} TrimPadded(cell: string, n: nat)
    ensures Trim(" " + (cell + (Repeat(' ', n) + " "))) == Trim(cell)
  {
    hide Trim;
    var padded := cell + Repeat(' ', n);
    ConcatAssociates(cell, Repeat(' ', n), " ");
    TrimPrepend(padded + " ", ' ');
    TrimAppend(padded, ' ');
    TrimRun(cell, n);
  }

  ghost predicate Free(s: string, c: char) {
    forall i :: 0 <= i < |s| ==> s[i] != c
  }

  lemma {:induction false} TrimStartFacts(s: string, c: char)
    ensures Free(s, c) ==> Free(TrimStart(s), c)
    ensures TrimStart(s) == [] || !IsJsSpace(TrimStart(s)[0])
    decreases |s|
  {
    hide IsJsSpace;
    if s != [] && IsJsSpace(s[0]) {
      TrimStartFacts(s[1..], c);
    }
  }

  lemma {:induction false} TrimEndFacts(s: string, c: char)
    ensures Free(s, c) ==> Free(TrimEnd(s), c)
    ensures TrimEnd(s) == [] || (!IsJsSpace(TrimEnd(s)[|TrimEnd(s)| - 1]) && s != [] && TrimEnd(s)[0] == s[0])
    decreases |s|
  {
    hide IsJsSpace;
    if s != [] && IsJsSpace(s[|s| - 1]) {
      TrimEndFacts(s[..|s| - 1], c);
    }
  }

  /** Trimming removes characters only, leaves no outer whitespace, and trims only once. */
  lemma {:induction false} TrimFacts(s: string, c: char)
    ensures Free(s, c) ==> Free(Trim(s), c)
    ensures Trim(Trim(s)) == Trim(s)
  {
    hide IsJsSpace;
    TrimStartFacts(s, c);
    TrimEndFacts(TrimStart(s), c);
  }

  lemma {:induction false} TrimKeeps(s: string)
    requires s == [] || (!IsJsSpace(s[0]) && !IsJsSpace(s[|s| - 1]))
    ensures Trim(s) == s
  {
  }

  lemma {:induction false} TrimFirst(s: string)
    requires s != [] && !IsJsSpace(s[0])
    ensures Trim(s) != [] && Trim(s)[0] == s[0]
  {
    hide IsJsSpace;
    TrimEndHead(s);
  }

  lemma {:induction false} TrimEndHead(s: string)
    requires s != [] && !IsJsSpace(s[0])
    ensures TrimEnd(s) != [] && TrimEnd(s)[0] == s[0]
    decreases |s|
  {
    hide IsJsSpace;
    if IsJsSpace(s[|s| - 1]) {
      TrimEndHead(s[..|s| - 1]);
    }
  }

  // ---- Splitting ----

  lemma {:induction false} SplitFirst(a: string, c: char, b: string)
    requires Free(a, c)
    ensures SplitOn(a + ([c] + b), c) == [a] + SplitOn(b, c)
    decreases |a|
  {
    var s := a + ([c] + b);
    if a == [] {
      assert s == [c] + b && s[1..] == b;
    } else {
      assert s[1..] == a[1..] + ([c] + b);
      assert forall i :: 0 <= i < |a| - 1 ==> a[1..][i] == a[i + 1];
      SplitFirst(a[1..], c, b);
      assert [a[0]] + a[1..] == a;
      assert SplitOn(s, c) == [[s[0]] + a[1..]] + SplitOn(b, c);
    }
  }

  /** Pieces hold no separator and no character that the text did not hold. */
  lemma {:induction false} PiecesFree(s: string, c: char, d: char, i: nat)
    requires i < |SplitOn(s, c)|
    ensures Free(SplitOn(s, c)[i], c) && (Free(s, d) ==> Free(SplitOn(s, c)[i], d))
    decreases |s|
  {
    if s != [] {
      var rest := SplitOn(s[1..], c);
      assert Free(s, d) ==> Free(s[1..], d);
      if s[0] == c {
        if i > 0 {
          PiecesFree(s[1..], c, d, i - 1);
        }
      } else if i == 0 {
        PiecesFree(s[1..], c, d, 0);
      } else {
        PiecesFree(s[1..], c, d, i);
      }
    }
  }

  // ---- Clean texts ----

  /** A text a cell can carry to the client and back: no bar, no line feed, no outer whitespace. */
  ghost predicate Clean(t: string) {
    Free(t, '|') && Free(t, '\n') && Trim(t) == t
  }

  ghost predicate Inert(t: string) {
    Free(t, '|') && Free(t, '\n')
  }

  ghost predicate AllInert(cells: seq<string>) {
    forall j :: 0 <= j < |cells| ==> Inert(cells[j])
  }

  lemma {:induction false} SplitCellsClean(line: string, j: nat)
    requires Free(line, '\n') && j < |SplitCells(line)|
    ensures Clean(SplitCells(line)[j])
  {
    hide IsJsSpace, SplitOn, Trim;
    var t := Trim(line);
    TrimFacts(line, '\n');
    var pieces := SplitOn(t, '|');
    assert pieces[1..|pieces| - 1][j] == pieces[j + 1];
    PiecesFree(t, '|', '\n', j + 1);
    TrimFacts(pieces[j + 1], '\n');
    TrimFacts(pieces[j + 1], '|');
  }

  ghost predicate NoFeeds(lines: seq<string>) {
    forall i :: 0 <= i < |lines| ==> Free(lines[i], '\n')
  }

  lemma {:induction false} TrimmedNoFeeds(pieces: seq<string>)
    requires pieces != [] && NoFeeds(pieces)
    ensures NoFeeds(TrimmedLines(pieces))
    decreases |pieces|
  {
    hide IsJsSpace, Trim;
    TrimFacts(pieces[0], '\n');
    TrimFacts(DropCarriageReturn(pieces[0]), '\n');
    if |pieces| > 1 {
      TrimmedNoFeeds(pieces[1..]);
    }
  }

  lemma {:induction false} NonEmptyNoFeeds(lines: seq<string>)
    requires NoFeeds(lines)
    ensures NoFeeds(NonEmpty(lines))
    decreases |lines|
  {
    if lines != [] {
      NonEmptyNoFeeds(lines[1..]);
    }
  }

  lemma {:induction false} LinesNoFeeds(raw: string)
    ensures NoFeeds(LinesOf(raw))
  {
    hide TrimmedLines, NonEmpty;
    var pieces := SplitOn(raw, '\n');
    forall i | 0 <= i < |pieces|
      ensures Free(pieces[i], '\n')
    {
      PiecesFree(raw, '\n', '\n', i);
    }
    TrimmedNoFeeds(pieces);
    NonEmptyNoFeeds(TrimmedLines(pieces));
  }

  ghost predicate CleanRow(row: map<string, string>) {
    forall h :: h in row ==> Clean(row[h])
  }

  lemma {:induction false} RowOfClean(headers: seq<string>, cells: seq<string>, n: nat)
    requires n <= |headers|
    requires forall j :: 0 <= j < |cells| ==> Clean(cells[j])
    ensures CleanRow(RowOf(headers, cells, n))
    decreases n
  {
    hide Clean;
    EmptyClean();
    if n > 0 {
      RowOfClean(headers, cells, n - 1);
    }
  }

  lemma {:induction false} EmptyClean()
    ensures Clean("")
  {
  }

  lemma {:induction false} RowsClean(headers: seq<string>, lines: seq<string>)
    requires NoFeeds(lines)
    ensures forall i :: 0 <= i < |RowsOfLines(headers, lines)| ==> CleanRow(RowsOfLines(headers, lines)[i])
    decreases |lines|
  {
    hide SplitCells, Clean, CleanRow, RowOf;
    if lines != [] {
      var cells := SplitCells(lines[0]);
      forall j | 0 <= j < |cells|
        ensures Clean(cells[j])
      {
        SplitCellsClean(lines[0], j);
      }
      RowOfClean(headers, cells, |headers|);
      RowsClean(headers, lines[1..]);
    }
  }

  /** Whatever text it is given, the client only ever reports clean headers and clean cells. */
  lemma {:induction false} ParsedIsClean(raw: string)
    requires ParseTable(raw).Parsed?
    ensures forall j :: 0 <= j < |ParseTable(raw).headers| ==> Clean(ParseTable(raw).headers[j])
    ensures forall i :: 0 <= i < |ParseTable(raw).rows| ==> CleanRow(ParseTable(raw).rows[i])
  {
    hide SplitCells, Clean, CleanRow, LinesOf, RowsOfLines, Trim;
    if Trim(raw) != "(No rows)" {
      var lines := LinesOf(raw);
      LinesNoFeeds(raw);
      var headers := SplitCells(lines[0]);
      forall j | 0 <= j < |headers|
        ensures Clean(headers[j])
      {
        SplitCellsClean(lines[0], j);
      }
      RowsClean(headers, lines[2..]);
    }
  }

  // ---- Reading one line ----

  /** A written line without its newline. */
  function Body(cells: seq<string>, widths: seq<nat>): string
    requires Fits(cells, widths)
  {
    "|" + PaddedCells(cells, widths)
  }

  /** Lines start and end with a bar and hold no line feed. */
  ghost predicate Barred(line: string) {
    line != [] && line[0] == '|' && line[|line| - 1] == '|' && Free(line, '\n')
  }

  lemma {:induction false} PaddedShape(cells: seq<string>, widths: seq<nat>)
    requires Fits(cells, widths) && AllInert(cells)
    ensures Free(PaddedCells(cells, widths), '\n')
    ensures cells != [] ==>
      PaddedCells(cells, widths) != [] && PaddedCells(cells, widths)[|PaddedCells(cells, widths)| - 1] == '|'
    decreases |cells|
  {
    if cells != [] {
      PaddedShape(cells[1..], widths[1..]);
      var cell := PaddedCell(cells[0], widths[0]);
      assert Free(cell, '\n');
      assert cell[|cell| - 1] == '|';
      PaddedLast(cell, PaddedCells(cells[1..], widths[1..]));
    }
  }

  lemma {:induction false} PaddedLast(a: string, b: string)
    requires a != [] && a[|a| - 1] == '|' && Free(a, '\n') && Free(b, '\n')
    requires b == [] || b[|b| - 1] == '|'
    ensures (a + b) != [] && (a + b)[|a + b| - 1] == '|' && Free(a + b, '\n')
  {
  }

  lemma {:induction false} RulesShape(widths: seq<nat>)
    ensures Free(Rules(widths), '\n')
    ensures widths != [] ==> Rules(widths) != [] && Rules(widths)[|Rules(widths)| - 1] == '|'
    decreases |widths|
  {
    if widths != [] {
      RulesShape(widths[1..]);
      var rule := "-" + (Repeat('-', widths[0]) + "-|");
      PaddedLast(rule, Rules(widths[1..]));
    }
  }

  /** The piece between two bars. */
  function Piece(cell: string, width: nat): string
    requires |cell| <= width
  {
    " " + (cell + (Repeat(' ', width - |cell|) + " "))
  }

  function Pieces(cells: seq<string>, widths: seq<nat>): (r: seq<string>)
    requires Fits(cells, widths)
    ensures |r| == |cells|
  {
    if cells == [] then [] else [Piece(cells[0], widths[0])] + Pieces(cells[1..], widths[1..])
  }

  lemma {:induction false} PaddedIsPieceBar(cell: string, width: nat, rest: string)
    requires |cell| <= width && Inert(cell)
    ensures PaddedCell(cell, width) + rest == Piece(cell, width) + (['|'] + rest)
    ensures Free(Piece(cell, width), '|')
  {
  }

  lemma {:induction false} SplitPadded(cells: seq<string>, widths: seq<nat>)
    requires Fits(cells, widths) && AllInert(cells)
    ensures SplitOn(PaddedCells(cells, widths), '|') == Pieces(cells, widths) + [[]]
    decreases |cells|
  {
    if cells != [] {
      hide PaddedCell, Piece, Free;
      var rest := PaddedCells(cells[1..], widths[1..]);
      PaddedIsPieceBar(cells[0], widths[0], rest);
      SplitFirst(Piece(cells[0], widths[0]), '|', rest);
      SplitPadded(cells[1..], widths[1..]);
    }
  }

  lemma {:induction false} TrimPieces(cells: seq<string>, widths: seq<nat>, j: nat)
    requires Fits(cells, widths) && j < |cells|
    ensures Trim(Pieces(cells, widths)[j]) == Trim(cells[j])
    decreases |cells|
  {
    hide Trim;
    if j == 0 {
      TrimPadded(cells[0], widths[0] - |cells[0]|);
    } else {
      TrimPieces(cells[1..], widths[1..], j - 1);
    }
  }

  lemma {:induction false} BodyBarred(cells: seq<string>, widths: seq<nat>)
    requires Fits(cells, widths) && AllInert(cells) && cells != []
    ensures Barred(Body(cells, widths))
  {
    PaddedShape(cells, widths);
  }

  lemma {:induction false} BarredTrim(line: string)
    requires Barred(line)
    ensures Trim(line) == line && DropCarriageReturn(line) == line
  {
    TrimKeeps(line);
  }

  /** The cells of a written line come back trimmed, in order. */
  lemma {:induction false} SplitCellsOfBody(cells: seq<string>, widths: seq<nat>)
    requires Fits(cells, widths) && AllInert(cells) && cells != []
    ensures SplitCells(Body(cells, widths)) == TrimAll(cells)
  {
    hide Trim, PaddedCells, Pieces;
    var body, padded := Body(cells, widths), PaddedCells(cells, widths);
    BodyBarred(cells, widths);
    BarredTrim(body);
    assert SplitOn(body, '|') == [[]] + SplitOn(padded, '|') by {
      assert body == [] + (['|'] + padded);
      SplitFirst([], '|', padded);
    }
    SplitPadded(cells, widths);
    var pieces := SplitOn(body, '|');
    assert pieces[1..|pieces| - 1] == Pieces(cells, widths);
    forall j | 0 <= j < |cells|
      ensures Trim(Pieces(cells, widths)[j]) == Trim(cells[j])
    {
      TrimPieces(cells, widths, j);
    }
  }

  // ---- Reading all lines ----

  function Bodies(rows: seq<seq<string>>, widths: seq<nat>): (r: seq<string>)
    requires AllFit(rows, widths)
    ensures |r| == |rows|
  {
    if rows == [] then [] else [Body(rows[0], widths)] + Bodies(rows[1..], widths)
  }

  ghost predicate RowsInert(rows: seq<seq<string>>) {
    forall r :: 0 <= r < |rows| ==> rows[r] != [] && AllInert(rows[r])
  }

  ghost predicate AllBarred(lines: seq<string>) {
    forall i :: 0 <= i < |lines| ==> Barred(lines[i])
  }

  lemma {:induction false} SplitLines(rows: seq<seq<string>>, widths: seq<nat>)
    requires AllFit(rows, widths) && RowsInert(rows)
    ensures SplitOn(Lines(rows, widths), '\n') == Bodies(rows, widths) + [[]]
    ensures AllBarred(Bodies(rows, widths))
    decreases |rows|
  {
    hide PaddedCells, Free;
    if rows != [] {
      var body, rest := Body(rows[0], widths), Lines(rows[1..], widths);
      BodyBarred(rows[0], widths);
      LineIsBody(PaddedCells(rows[0], widths), rest);
      SplitFirst(body, '\n', rest);
      SplitLines(rows[1..], widths);
    }
  }

  lemma {:induction false} LineIsBody(padded: string, rest: string)
    ensures ("|" + (padded + "\n")) + rest == ("|" + padded) + (['\n'] + rest)
  {
  }

  /** Barred lines survive trimming and the filter; the empty piece after the last newline does not. */
  lemma {:induction false} BarredLinesKept(lines: seq<string>)
    requires AllBarred(lines)
    ensures NonEmpty(TrimmedLines(lines + [[]])) == lines
    decreases |lines|
  {
    hide Trim, Barred, DropCarriageReturn;
    if lines == [] {
      assert lines + [[]] == [[]];
      TrimKeeps([]);
      assert NonEmpty([[]]) == [] + NonEmpty([]);
    } else {
      assert (lines + [[]])[1..] == lines[1..] + [[]];
      BarredTrim(lines[0]);
      BarredLinesKept(lines[1..]);
      var rest := TrimmedLines(lines[1..] + [[]]);
      var all := [lines[0]] + rest;
      assert all[1..] == rest;
      BarredNonEmpty(lines[0]);
    }
  }

  lemma {:induction false} BarredNonEmpty(line: string)
    requires Barred(line)
    ensures line != []
  {
  }

  lemma {:induction false} LinesOfRender(headers: seq<string>, rows: seq<seq<string>>, widths: seq<nat>)
    requires Fits(headers, widths) && AllFit(rows, widths)
    requires headers != [] && AllInert(headers) && RowsInert(rows)
    ensures LinesOf(Render(headers, rows, widths))
         == [Body(headers, widths), "|" + Rules(widths)] + Bodies(rows, widths)
  {
    hide Free, PaddedCells, Rules, Bodies, TrimmedLines, NonEmpty, SplitOn;
    var head, rule, rest := Body(headers, widths), "|" + Rules(widths), Lines(rows, widths);
    BodyBarred(headers, widths);
    RulesShape(widths);
    RuleBarred(Rules(widths));
    SplitLines(rows, widths);
    LineIsBody(PaddedCells(headers, widths), RuleLine(widths) + rest);
    SplitFirst(head, '\n', RuleLine(widths) + rest);
    LineIsBody(Rules(widths), rest);
    SplitFirst(rule, '\n', rest);
    var lines := [head, rule] + Bodies(rows, widths);
    assert SplitOn(Render(headers, rows, widths), '\n') == lines + [[]];
    BarredLinesKept(lines);
  }

  lemma {:induction false} RuleBarred(rules: string)
    requires Free(rules, '\n') && rules != [] && rules[|rules| - 1] == '|'
    ensures Barred("|" + rules)
  {
  }

  lemma {:induction false} RowsOfBodies(headers: seq<string>, rows: seq<seq<string>>, widths: seq<nat>, i: nat)
    requires AllFit(rows, widths) && RowsInert(rows)
    ensures |RowsOfLines(headers, Bodies(rows, widths))| == |rows|
    ensures i < |rows| ==> RowsOfLines(headers, Bodies(rows, widths))[i] == RowOf(headers, TrimAll(rows[i]), |headers|)
    decreases |rows|
  {
    hide SplitCells, Body, RowOf, TrimAll, AllInert;
    if rows != [] {
      SplitCellsOfBody(rows[0], widths);
      RowsOfBodies(headers, rows[1..], widths, if i > 0 then i - 1 else 0);
      assert Bodies(rows, widths)[1..] == Bodies(rows[1..], widths);
    }
  }

  /** With no bar and no line feed in any cell, the client reads every header and cell, trimmed. */
  lemma {:induction false} RenderReads(headers: seq<string>, rows: seq<seq<string>>, widths: seq<nat>)
    requires Fits(headers, widths) && AllFit(rows, widths)
    requires headers != [] && AllInert(headers) && RowsInert(rows)
    ensures var r := ParseTable(Render(headers, rows, widths));
            && r.Parsed? && r.headers == TrimAll(headers) && |r.rows| == |rows|
            && forall i :: 0 <= i < |rows| ==> r.rows[i] == RowOf(TrimAll(headers), TrimAll(rows[i]), |headers|)
  {
    hide SplitCells, Body, RowOf, TrimAll, LinesOf, Trim, RowsOfLines, AllInert;
    var raw := Render(headers, rows, widths);
    TrimFirst(raw);
    LinesOfRender(headers, rows, widths);
    var lines := LinesOf(raw);
    SplitCellsOfBody(headers, widths);
    assert lines[2..] == Bodies(rows, widths);
    RowsOfBodies(TrimAll(headers), rows, widths, 0);
    forall i | 0 <= i < |rows|
      ensures RowsOfLines(TrimAll(headers), lines[2..])[i] == RowOf(TrimAll(headers), TrimAll(rows[i]), |headers|)
    {
      RowsOfBodies(TrimAll(headers), rows, widths, i);
    }
  }

  // ---- Exactly when a table comes back ----

  /** Every header and every cell's full text is what the client holds. */
  ghost predicate Recovered(p: Parsed, headers: seq<string>, full: seq<seq<string>>)
    requires forall i :: 0 <= i < |full| ==> |full[i]| == |headers|
  {
    && p.Parsed? && p.headers == headers && |p.rows| == |full|
    && forall i, j :: 0 <= i < |full| && 0 <= j < |headers| ==>
         headers[j] in p.rows[i] && p.rows[i][headers[j]] == full[i][j]
  }

  function FullRows(fields: seq<Field>, rows: seq<Row>, g: int -> string): (r: seq<seq<string>>)
    requires Shaped(fields, rows)
    ensures |r| == |rows| && forall i :: 0 <= i < |r| ==> r[i] == FullRow(fields, rows[i], g)
  {
    seq(|rows|, i requires 0 <= i < |rows| => FullRow(fields, rows[i], g))
  }

  /** Columns that share a name hold one text. */
  ghost predicate Agree(headers: seq<string>, cells: seq<string>)
    requires |headers| == |cells|
  {
    forall j, k :: 0 <= j < |headers| && 0 <= k < |headers| && headers[j] == headers[k] ==> cells[j] == cells[k]
  }

  ghost predicate AllClean(cells: seq<string>) {
    forall j :: 0 <= j < |cells| ==> Clean(cells[j])
  }

  lemma {:induction false} TrimClean(cells: seq<string>)
    requires AllClean(cells)
    ensures TrimAll(cells) == cells && AllInert(cells)
  {
    hide Trim, Free;
  }

  /** No later column has this column's name. */
  ghost predicate LastOfName(headers: seq<string>, k: nat) {
    k < |headers| && forall m :: k < m < |headers| ==> headers[m] != headers[k]
  }

  lemma {:induction false} LastExists(headers: seq<string>, j: nat) returns (k: nat)
    requires j < |headers|
    ensures LastOfName(headers, k) && headers[k] == headers[j]
    decreases |headers| - j
  {
    if m :| j < m < |headers| && headers[m] == headers[j] {
      k := LastExists(headers, m);
    } else {
      k := j;
    }
  }

  /** The last column of a name decides what the row holds under it. */
  lemma {:induction false} RowOfLast(headers: seq<string>, cells: seq<string>, n: nat, k: nat)
    requires k < n <= |headers| == |cells| && LastOfName(headers, k) && headers[k] != PROTO
    ensures headers[k] in RowOf(headers, cells, n) && RowOf(headers, cells, n)[headers[k]] == cells[k]
    decreases n
  {
    if k < n - 1 {
      RowOfLast(headers, cells, n - 1, k);
    }
  }

  lemma {:induction false} NoPrototype(headers: seq<string>, cells: seq<string>, n: nat)
    requires n <= |headers|
    ensures PROTO !in RowOf(headers, cells, n)
    decreases n
  {
    if n > 0 {
      NoPrototype(headers, cells, n - 1);
    }
  }

  /** What is written of a cell is a prefix of its text, cut only in a long scalar. */
  lemma {:induction false} ShownPrefix(fields: seq<Field>, row: Row, g: int -> string, j: nat)
    requires |row.values| == |fields| && j < |fields| + 2
    ensures ShownRow(fields, row, g)[j] <= FullRow(fields, row, g)[j]
    ensures j < |fields| && fields[j].ty.Scalar? ==> |ShownRow(fields, row, g)[j]| <= CUT
    ensures j < |fields| && fields[j].ty.Scalar? && |FullRow(fields, row, g)[j]| > CUT ==>
      ShownRow(fields, row, g)[j] != FullRow(fields, row, g)[j]
    ensures !(j < |fields| && fields[j].ty.Scalar? && |FullRow(fields, row, g)[j]| > CUT) ==>
      ShownRow(fields, row, g)[j] == FullRow(fields, row, g)[j]
  {
    hide ScalarText, ArrayText, IntText;
  }

  lemma {:induction false} TrimShrinks(s: string)
    ensures |Trim(s)| <= |s|
  {
    TrimStartShrinks(s);
    TrimEndShrinks(TrimStart(s));
  }

  lemma {:induction false} TrimStartShrinks(s: string)
    ensures |TrimStart(s)| <= |s|
    decreases |s|
  {
    hide IsJsSpace;
    if s != [] && IsJsSpace(s[0]) {
      TrimStartShrinks(s[1..]);
    }
  }

  lemma {:induction false} TrimEndShrinks(s: string)
    ensures |TrimEnd(s)| <= |s|
    decreases |s|
  {
    hide IsJsSpace;
    if s != [] && IsJsSpace(s[|s| - 1]) {
      TrimEndShrinks(s[..|s| - 1]);
    }
  }

  lemma {:induction false} PrefixInert(a: string, b: string)
    requires a <= b && Clean(b)
    ensures Inert(a)
  {
    hide Trim;
  }

  /**
   * The condition on one row: clean texts, one text per name, and no scalar past the cut
   * (a scalar hidden behind a later column of its name is not read, so it may be cut).
   */
  ghost predicate Readable(fields: seq<Field>, row: Row, g: int -> string)
    requires |row.values| == |fields|
  {
    var full := FullRow(fields, row, g);
    && AllClean(full) && Agree(Headers(fields), full)
    && forall j :: 0 <= j < |fields| && fields[j].ty.Scalar? && LastOfName(Headers(fields), j) ==> |full[j]| <= CUT
  }

  ghost predicate HeadersReadable(headers: seq<string>) {
    AllClean(headers) && forall j :: 0 <= j < |headers| ==> headers[j] != PROTO
  }

  lemma {:induction false} ShownInert(fields: seq<Field>, rows: seq<Row>, g: int -> string)
    requires Shaped(fields, rows)
    requires forall i :: 0 <= i < |rows| ==> AllClean(FullRow(fields, rows[i], g))
    ensures RowsInert(ShownRows(fields, rows, g))
  {
    hide Clean, Inert, FullRow, ShownRow;
    var shown := ShownRows(fields, rows, g);
    forall i, j | 0 <= i < |rows| && 0 <= j < |shown[i]|
      ensures Inert(shown[i][j])
    {
      ShownPrefix(fields, rows[i], g, j);
      PrefixInert(shown[i][j], FullRow(fields, rows[i], g)[j]);
    }
  }

  lemma {:induction false} ReadableRecovers(fields: seq<Field>, rows: seq<Row>, g: int -> string)
    requires Shaped(fields, rows) && rows != [] && HeadersReadable(Headers(fields))
    requires forall i :: 0 <= i < |rows| ==> Readable(fields, rows[i], g)
    ensures Recovered(ParseTable(FormatRows(fields, rows, g)), Headers(fields), FullRows(fields, rows, g))
  {
    hide Clean, Inert, FullRow, ShownRow, Headers, Widths, ParseTable, Render, RowOf, TrimAll;
    var headers, shown := Headers(fields), ShownRows(fields, rows, g);
    CellsFit(fields, rows, g);
    TrimClean(headers);
    ShownInert(fields, rows, g);
    RenderReads(headers, shown, Widths(fields, rows, g));
    var p := ParseTable(FormatRows(fields, rows, g));
    forall i, j | 0 <= i < |rows| && 0 <= j < |headers|
      ensures headers[j] in p.rows[i] && p.rows[i][headers[j]] == FullRow(fields, rows[i], g)[j]
    {
      var full := FullRow(fields, rows[i], g);
      var k := LastExists(headers, j);
      ShownPrefix(fields, rows[i], g, k);
      RowOfLast(headers, TrimAll(shown[i]), |headers|, k);
      TrimAllAt(shown[i], k);
      CleanTrims(full[k]);
    }
  }

  /** Recovered texts are clean, so the line structure held, so no text can have been cut. */
  lemma {:induction false} RecoveredIsReadable(fields: seq<Field>, rows: seq<Row>, g: int -> string)
    requires Shaped(fields, rows) && rows != []
    requires Recovered(ParseTable(FormatRows(fields, rows, g)), Headers(fields), FullRows(fields, rows, g))
    ensures HeadersReadable(Headers(fields))
    ensures forall i :: 0 <= i < |rows| ==> Readable(fields, rows[i], g)
  {
    hide Clean, Inert, FullRow, ShownRow, Headers, Widths, ParseTable, Render, RowOf, TrimAll;
    var headers, shown := Headers(fields), ShownRows(fields, rows, g);
    var raw := FormatRows(fields, rows, g);
    var p := ParseTable(raw);
    ParsedIsClean(raw);
    forall i | 0 <= i < |rows|
      ensures AllClean(FullRow(fields, rows[i], g)) && Agree(headers, FullRow(fields, rows[i], g))
    {
      var full := FullRow(fields, rows[i], g);
      assert CleanRow(p.rows[i]) && FullRows(fields, rows, g)[i] == full;
      forall j | 0 <= j < |full|
        ensures headers[j] in p.rows[i] && p.rows[i][headers[j]] == full[j]
      {
      }
    }
    CellsFit(fields, rows, g);
    TrimClean(headers);
    ShownInert(fields, rows, g);
    RenderReads(headers, shown, Widths(fields, rows, g));
    forall j | 0 <= j < |headers|
      ensures headers[j] != PROTO
    {
      NoPrototype(headers, TrimAll(shown[0]), |headers|);
      assert headers[j] in p.rows[0];
    }
    forall i, j | 0 <= i < |rows| && 0 <= j < |fields| && fields[j].ty.Scalar? && LastOfName(headers, j)
      ensures |FullRow(fields, rows[i], g)[j]| <= CUT
    {
      assert FullRows(fields, rows, g)[i] == FullRow(fields, rows[i], g);
      RowOfLast(headers, TrimAll(shown[i]), |headers|, j);
      TrimAllAt(shown[i], j);
      ShownPrefix(fields, rows[i], g, j);
      TrimShrinks(shown[i][j]);
    }
  }

  lemma {:induction false} TrimAllAt(cells: seq<string>, k: nat)
    requires k < |cells|
    ensures TrimAll(cells)[k] == Trim(cells[k])
  {
  }

  lemma {:induction false} CleanTrims(t: string)
    requires Clean(t)
    ensures Trim(t) == t
  {
  }

  /**
   * The client holds every header and every full cell text, for every table the server
   * formats, exactly when there are rows and the names and rows are readable. Carriage
   * returns inside a cell are harmless.
   */
  lemma {:induction false} TableRoundTripIff(fields: seq<Field>, rows: seq<Row>, g: int -> string)
    requires Shaped(fields, rows)
    ensures Recovered(ParseTable(FormatRows(fields, rows, g)), Headers(fields), FullRows(fields, rows, g))
       <==> && rows != [] && HeadersReadable(Headers(fields))
            && forall i :: 0 <= i < |rows| ==> Readable(fields, rows[i], g)
  {
    hide Readable, HeadersReadable, Render;
    if rows == [] {
      assert Trim("(No rows)\n") == "(No rows)" by { NoticeTrims(); }
    } else if Recovered(ParseTable(FormatRows(fields, rows, g)), Headers(fields), FullRows(fields, rows, g)) {
      RecoveredIsReadable(fields, rows, g);
    } else if HeadersReadable(Headers(fields)) && forall i :: 0 <= i < |rows| ==> Readable(fields, rows[i], g) {
      ReadableRecovers(fields, rows, g);
    }
  }

  /** No rows come back as no rows and no headers. */
  lemma {:induction false} EmptyTable(fields: seq<Field>, g: int -> string)
    ensures ParseTable(FormatRows(fields, [], g)) == Parsed([], [])
  {
    hide LinesOf;
    NoticeTrims();
  }

  lemma {:induction false} NoticeTrims()
    ensures Trim("(No rows)\n") == "(No rows)"
  {
    var notice := "(No rows)";
    assert "(No rows)\n" == notice + ['\n'];
    TrimAppend(notice, '\n');
    TrimKeeps(notice);
  }

  /** A one-line message is no table: reading it fails. */
  lemma {:induction false} MessageIsNoTable(raw: string)
    requires Free(raw, '\n') && Trim(raw) != "(No rows)"
    ensures ParseTable(raw) == Invalid("Invalid table response: missing header or separator")
  {
    hide Trim;
    OnePiece(raw);
    assert |NonEmpty([Trim(raw)])| <= 1 by { assert NonEmpty([Trim(raw)][1..]) == []; }
  }

  lemma {:induction false} OnePiece(s: string)
    requires Free(s, '\n')
    ensures SplitOn(s, '\n') == [s]
    decreases |s|
  {
    if s != [] {
      assert Free(s[1..], '\n');
      OnePiece(s[1..]);
      assert [s[0]] + s[1..] == s;
    }
  }

  // ---- Which values have clean texts ----

  lemma {:induction false} JoinInertIff(parts: seq<string>, c: char)
    requires c == '|' || c == '\n'
    ensures Free(JoinTexts(parts), c) <==> forall i :: 0 <= i < |parts| ==> Free(parts[i], c)
    decreases |parts|
  {
    if |parts| == 1 {
    } else if |parts| > 1 {
      JoinInertIff(parts[1..], c);
      FreeConcat(", ", JoinTexts(parts[1..]), c);
      FreeConcat(parts[0], ", " + JoinTexts(parts[1..]), c);
      assert parts == [parts[0]] + parts[1..];
      assert forall i :: 0 < i < |parts| ==> parts[i] == parts[1..][i - 1];
    }
  }

  lemma {:induction false} FreeConcat(a: string, b: string, c: char)
    ensures Free(a + b, c) <==> Free(a, c) && Free(b, c)
  {
    if Free(a + b, c) {
      assert forall i :: 0 <= i < |a| ==> (a + b)[i] == a[i];
      assert forall i :: 0 <= i < |b| ==> (a + b)[|a| + i] == b[i];
    }
  }

  lemma {:induction false} ArrayTextFree(ds: seq<Data>, k: Kind, g: int -> string, c: char)
    requires c == '|' || c == '\n'
    ensures Free(ArrayText(ds, k, g), c) <==> forall i :: 0 <= i < |ds| ==> Free(ScalarText(ds[i], g), c)
  {
    hide ScalarText;
    var parts := ElementTexts(ds, k, g);
    JoinInertIff(parts, c);
    FreeConcat(JoinTexts(parts), "]", c);
    FreeConcat("[", JoinTexts(parts) + "]", c);
    forall i | 0 <= i < |ds|
      ensures Free(parts[i], c) <==> Free(ScalarText(ds[i], g), c)
    {
      FreeConcat(ScalarText(ds[i], g), "\"", c);
      FreeConcat("\"", ScalarText(ds[i], g) + "\"", c);
    }
  }

  /** An array cell is clean exactly when none of its elements' texts holds a bar or a line feed. */
  lemma {:induction false} ArrayCleanIff(ds: seq<Data>, k: Kind, g: int -> string)
    ensures Clean(ArrayText(ds, k, g)) <==> forall i :: 0 <= i < |ds| ==> Inert(ScalarText(ds[i], g))
  {
    hide ScalarText, JoinTexts, ElementTexts, Trim, Free;
    ArrayTextFree(ds, k, g, '|');
    ArrayTextFree(ds, k, g, '\n');
    TrimKeeps(ArrayText(ds, k, g));
  }

  // ---- Array cells ----

  /** A comma followed by a space. */
  ghost predicate HasComma(s: string) {
    exists i :: 0 <= i < |s| - 1 && s[i] == ',' && s[i + 1] == ' '
  }

  lemma {:induction false} GlueFirst(c: char, xs: seq<string>, ys: seq<string>)
    requires xs != []
    ensures Glue(c, xs + ys) == Glue(c, xs) + ys
  {
  }

  lemma {:induction false} SplitCommaConcat(a: string, b: string)
    ensures SplitComma(a + (", " + b)) == SplitComma(a) + SplitComma(b)
    decreases |a|
  {
    hide Glue;
    var s := a + (", " + b);
    if a == [] {
      assert s[2..] == b;
      assert SplitComma(a) == [[]];
    } else if |a| >= 2 && a[0] == ',' && a[1] == ' ' {
      assert s[2..] == a[2..] + (", " + b);
      SplitCommaConcat(a[2..], b);
    } else {
      assert s[1..] == a[1..] + (", " + b);
      SplitCommaConcat(a[1..], b);
      assert SplitComma(s) == Glue(a[0], SplitComma(a[1..]) + SplitComma(b));
      GlueFirst(a[0], SplitComma(a[1..]), SplitComma(b));
    }
  }

  lemma {:induction false} SplitCommaSingle(s: string)
    ensures !HasComma(s) ==> SplitComma(s) == [s]
    ensures HasComma(s) ==> |SplitComma(s)| > 1
    decreases |s|
  {
    if |s| >= 2 && s[0] == ',' && s[1] == ' ' {
      assert HasComma(s);
    } else if s != [] {
      SplitCommaSingle(s[1..]);
      if HasComma(s) {
        var i :| 0 <= i < |s| - 1 && s[i] == ',' && s[i + 1] == ' ';
        assert i > 0;
        assert s[1..][i - 1] == ',' && s[1..][i] == ' ';
      } else {
        assert !HasComma(s[1..]);
        assert [s[0]] + s[1..] == s;
      }
    }
  }

  /** Splitting joined texts gives the texts back, or more pieces than there were texts. */
  lemma {:induction false} SplitJoined(parts: seq<string>)
    requires parts != []
    ensures (forall i :: 0 <= i < |parts| ==> !HasComma(parts[i])) ==> SplitComma(JoinTexts(parts)) == parts
    ensures (exists i :: 0 <= i < |parts| && HasComma(parts[i])) ==> |SplitComma(JoinTexts(parts))| > |parts|
    ensures |SplitComma(JoinTexts(parts))| >= |parts|
    decreases |parts|
  {
    hide HasComma, SplitComma;
    SplitCommaSingle(parts[0]);
    if |parts| > 1 {
      SplitJoined(parts[1..]);
      SplitCommaConcat(parts[0], JoinTexts(parts[1..]));
      assert parts == [parts[0]] + parts[1..];
      if i :| 0 <= i < |parts| && HasComma(parts[i]) {
        assert i > 0 ==> parts[i] == parts[1..][i - 1];
      }
    }
  }

  /** The texts of the elements, without quotes. */
  function BareTexts(ds: seq<Data>, g: int -> string): (r: seq<string>)
    ensures |r| == |ds|
  {
    seq(|ds|, i requires 0 <= i < |ds| => ScalarText(ds[i], g))
  }

  lemma {:induction false} QuotesHideNoComma(t: string)
    ensures HasComma("\"" + (t + "\"")) <==> HasComma(t)
    ensures Unquote("\"" + (t + "\"")) == t
  {
    var q := "\"" + (t + "\"");
    assert forall i :: 0 <= i < |t| ==> q[i + 1] == t[i];
    if HasComma(q) {
      var i :| 0 <= i < |q| - 1 && q[i] == ',' && q[i + 1] == ' ';
      assert t[i - 1] == ',' && t[i] == ' ';
    }
    if HasComma(t) {
      var i :| 0 <= i < |t| - 1 && t[i] == ',' && t[i + 1] == ' ';
      assert q[i + 1] == ',' && q[i + 2] == ' ';
    }
  }

  lemma {:induction false} PlainElement(d: Data, k: Kind, g: int -> string)
    requires HasKind(d, k) && k != KDouble
    ensures ElementText(d, k, g) != []
    ensures Unquote(ElementText(d, k, g)) == ScalarText(d, g)
    ensures HasComma(ElementText(d, k, g)) <==> HasComma(ScalarText(d, g))
    ensures k != KString ==> !HasComma(ScalarText(d, g))
  {
    if k == KString {
      QuotesHideNoComma(ScalarText(d, g));
    } else {
      var t := ScalarText(d, g);
      assert forall i :: 0 <= i < |t| ==> t[i] != ',' && t[i] != '"';
    }
  }

  /** An array cell's elements come back exactly when no element's text holds a comma and a space. */
  lemma {:induction false} ArrayRoundTripIff(ds: seq<Data>, k: Kind, g: int -> string)
    requires k != KDouble && forall i :: 0 <= i < |ds| ==> HasKind(ds[i], k)
    ensures ParseArrayString(ArrayText(ds, k, g)) == BareTexts(ds, g)
       <==> forall i :: 0 <= i < |ds| ==> !HasComma(ScalarText(ds[i], g))
    ensures k != KString ==> ParseArrayString(ArrayText(ds, k, g)) == BareTexts(ds, g)
  {
    hide ScalarText, HasComma, SplitComma, ElementText, HasKind, Unquote;
    var parts := ElementTexts(ds, k, g);
    var text, joined := ArrayText(ds, k, g), JoinTexts(parts);
    assert StripBrackets(text) == joined by { BracketsStrip(joined); }
    forall i | 0 <= i < |ds|
      ensures parts[i] != [] && Unquote(parts[i]) == ScalarText(ds[i], g)
      ensures HasComma(parts[i]) <==> HasComma(ScalarText(ds[i], g))
      ensures k != KString ==> !HasComma(ScalarText(ds[i], g))
    {
      PlainElement(ds[i], k, g);
    }
    if ds != [] {
      SplitJoined(parts);
      assert joined != [] by { assert parts[0] != []; }
      if forall i :: 0 <= i < |ds| ==> !HasComma(ScalarText(ds[i], g)) {
        assert UnquoteAll(parts) == BareTexts(ds, g);
      }
    }
  }

  lemma {:induction false} BracketsStrip(joined: string)
    ensures StripBrackets("[" + (joined + "]")) == joined
  {
    var a := joined + "]";
    assert ("[" + a)[1..] == a && a[..|a| - 1] == joined;
  }
}
