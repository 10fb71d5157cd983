/** What the client reads from the listing of keys. */
module KeyListing {
  import opened Values
  import opened Snapshot
  import opened AuthKeys
  import opened TableText
  import opened ClientTable
  import opened TableRoundTrip
  import opened Server

  // ---- Lines of their own widths ----

  function OwnWidths(cells: seq<string>): (r: seq<nat>)
    ensures Fits(cells, r)
  {
    seq(|cells|, j requires 0 <= j < |cells| => |cells[j]|)
  }

  function OwnBody(cells: seq<string>): string {
    Body(cells, OwnWidths(cells))
  }

  function OwnLines(rows: seq<seq<string>>): string {
    if rows == [] then [] else OwnBody(rows[0]) + (['\n'] + OwnLines(rows[1..]))
  }

  function OwnBodies(rows: seq<seq<string>>): (r: seq<string>)
    ensures |r| == |rows| && forall i :: 0 <= i < |rows| ==> r[i] == OwnBody(rows[i])
  {
    seq(|rows|, i requires 0 <= i < |rows| => OwnBody(rows[i]))
  }

  lemma {:induction false} SplitOwnLines(rows: seq<seq<string>>)
    requires RowsInert(rows)
    ensures SplitOn(OwnLines(rows), '\n') == OwnBodies(rows) + [[]]
    ensures AllBarred(OwnBodies(rows))
    decreases |rows|
  {
    hide Free, Body, AllInert;
    if rows != [] {
      BodyBarred(rows[0], OwnWidths(rows[0]));
      BarredFree(OwnBody(rows[0]));
      SplitFirst(OwnBody(rows[0]), '\n', OwnLines(rows[1..]));
      SplitOwnLines(rows[1..]);
      assert OwnBodies(rows) == [OwnBody(rows[0])] + OwnBodies(rows[1..]);
    }
  }

  lemma {:induction false} BarredFree(line: string)
    requires Barred(line)
    ensures Free(line, '\n')
  {
  }

  // ---- The listing ----

  function RoleWord(k: AuthKey): string {
    if k.role == 1 then "admin" else "readonly"
  }

  function KeyCells(k: AuthKey): seq<string> {
    [k.name, RoleWord(k)]
  }

  function ListingCells(keys: seq<AuthKey>): (r: seq<seq<string>>)
    ensures |r| == |keys| && forall i :: 0 <= i < |keys| ==> r[i] == KeyCells(keys[i])
  {
    seq(|keys|, i requires 0 <= i < |keys| => KeyCells(keys[i]))
  }

  lemma {:induction false} TwoCells(a: string, b: string)
    ensures OwnBody([a, b]) == "| " + a + " | " + b + " |"
  {
    var cells, widths := [a, b], OwnWidths([a, b]);
    assert cells[1..] == [b] && widths[1..] == [|b|] && [b][1..] == [] && [|b|][1..] == [];
    assert PaddedCells([], []) == [];
    assert PaddedCells([b], [|b|]) == PaddedCell(b, |b|) + PaddedCells([], []);
    assert PaddedCells(cells, widths) == PaddedCell(a, |a|) + PaddedCells([b], [|b|]);
    ExactCell(a);
    ExactCell(b);
  }

  lemma {:induction false} ExactCell(a: string)
    ensures PaddedCell(a, |a|) == " " + a + " |"
  {
    assert Repeat(' ', 0) == [];
  }

  lemma {:induction false} KeyLinesAreOwn(keys: seq<AuthKey>)
    ensures KeyLines(keys) == OwnLines(ListingCells(keys))
    decreases |keys|
  {
    hide OwnBody;
    if keys != [] {
      KeyLinesAreOwn(keys[1..]);
      assert ListingCells(keys)[1..] == ListingCells(keys[1..]);
      KeyLineIsOwn(keys[0]);
      var body := OwnBody(KeyCells(keys[0]));
      ConcatAssociates(body, ['\n'], KeyLines(keys[1..]));
    }
  }

  lemma {:induction false} KeyLineIsOwn(k: AuthKey)
    ensures KeyLine(k) == OwnBody(KeyCells(k)) + ['\n']
  {
    hide OwnBody;
    TwoCells(k.name, RoleWord(k));
  }

  function Listing(keys: seq<AuthKey>): seq<seq<string>> {
    [["name", "role"], ["-", "-"]] + ListingCells(keys)
  }

  lemma {:induction false} KeyTableIsOwn(keys: seq<AuthKey>)
    ensures KeyTable(keys) == OwnLines(Listing(keys))
  {
    hide OwnBody, KeyLines;
    KeyLinesAreOwn(keys);
    TwoCells("name", "role");
    TwoCells("-", "-");
    var all := Listing(keys);
    assert all[1..][1..] == ListingCells(keys) && all[1..][0] == ["-", "-"] && all[0] == ["name", "role"];
    assert OwnLines(all[1..]) == OwnBody(["-", "-"]) + (['\n'] + OwnLines(ListingCells(keys)));
  }

  /** The client holds each key's name and role, in the order of the store. */
  ghost predicate HoldsKeys(p: Parsed, keys: seq<AuthKey>) {
    && p.Parsed? && p.headers == ["name", "role"] && |p.rows| == |keys|
    && forall i :: 0 <= i < |keys| ==> p.rows[i] == map["name" := keys[i].name, "role" := if keys[i].role == 1 then "admin" else "readonly"]
  }

  lemma {:induction false} RoleClean(k: AuthKey)
    ensures Clean(RoleWord(k))
  {
    TrimKeeps(RoleWord(k));
  }

  lemma {:induction false} ListingReads(keys: seq<AuthKey>)
    requires forall i :: 0 <= i < |keys| ==> Clean(keys[i].name)
    ensures HoldsKeys(ParseTable(KeyTable(keys)), keys)
  {
    hide Clean, OwnBody, LinesOf, SplitCells, RowsOfLines, Trim, Inert, KeyTable, OwnLines, RowOf, TrimAll;
    var all, raw := Listing(keys), KeyTable(keys);
    KeyTableIsOwn(keys);
    ListingInert(keys);
    ListingLines(all, raw);
    var headers := ["name", "role"];
    FixedClean();
    TrimClean(headers);
    OwnCells(headers);
    var lines := LinesOf(raw);
    assert lines[2..] == OwnBodies(ListingCells(keys));
    KeyRows(keys, 0);
    forall i | 0 <= i < |keys|
      ensures RowsOfLines(headers, lines[2..])[i] == map["name" := keys[i].name, "role" := RoleWord(keys[i])]
    {
      KeyRows(keys, i);
    }
  }

  lemma {:induction false} FixedClean()
    ensures Clean("name") && Clean("role") && Clean("-")
  {
    TrimKeeps("name");
    TrimKeeps("role");
    TrimKeeps("-");
  }

  lemma {:induction false} ListingInert(keys: seq<AuthKey>)
    requires forall i :: 0 <= i < |keys| ==> Clean(keys[i].name)
    ensures RowsInert(Listing(keys))
    ensures forall i :: 0 <= i < |keys| ==> AllClean(KeyCells(keys[i]))
  {
    hide Trim, RoleWord, Free;
    FixedClean();
    var all := Listing(keys);
    forall i | 0 <= i < |keys|
      ensures AllClean(KeyCells(keys[i]))
    {
      RoleClean(keys[i]);
    }
    forall r | 0 <= r < |all|
      ensures all[r] != [] && AllInert(all[r])
    {
      if r >= 2 {
        assert all[r] == KeyCells(keys[r - 2]);
      }
    }
  }

  lemma {:induction false} ListingLines(all: seq<seq<string>>, raw: string)
    requires |all| >= 2 && RowsInert(all) && raw == OwnLines(all)
    ensures LinesOf(raw) == OwnBodies(all) && Trim(raw) != "(No rows)"
  {
    hide AllInert, Free, TrimmedLines, NonEmpty, Trim;
    SplitOwnLines(all);
    BarredLinesKept(OwnBodies(all));
    assert raw[0] == '|';
    TrimFirst(raw);
  }

  lemma {:induction false} OwnCells(cells: seq<string>)
    requires cells != [] && AllInert(cells)
    ensures SplitCells(OwnBody(cells)) == TrimAll(cells)
  {
    SplitCellsOfBody(cells, OwnWidths(cells));
  }

  lemma {:induction false} KeyRows(keys: seq<AuthKey>, i: nat)
    requires forall j :: 0 <= j < |keys| ==> Clean(keys[j].name)
    ensures var rows := RowsOfLines(["name", "role"], OwnBodies(ListingCells(keys)));
            |rows| == |keys| && (i < |keys| ==> rows[i] == map["name" := keys[i].name, "role" := RoleWord(keys[i])])
    decreases |keys|
  {
    hide Clean, SplitCells, OwnBody, RowOf, TrimAll, RoleWord;
    if keys != [] {
      var cells := KeyCells(keys[0]);
      RoleClean(keys[0]);
      assert AllClean(cells);
      TrimClean(cells);
      OwnCells(cells);
      KeyRow(cells);
      KeyRows(keys[1..], if i > 0 then i - 1 else 0);
      assert OwnBodies(ListingCells(keys))[1..] == OwnBodies(ListingCells(keys[1..]));
    }
  }

  lemma {:induction false} KeyRow(cells: seq<string>)
    requires |cells| == 2
    ensures RowOf(["name", "role"], cells, 2) == map["name" := cells[0], "role" := cells[1]]
  {
    var headers := ["name", "role"];
    assert RowOf(headers, cells, 1) == map["name" := cells[0]];
  }

  /** LIST_KEYS: the client holds all names and roles exactly when every name is clean. */
  lemma {:induction false} ListKeysReadIff(keys: seq<AuthKey>)
    ensures HoldsKeys(ParseTable(KeyTable(keys)), keys) <==> forall i :: 0 <= i < |keys| ==> Clean(keys[i].name)
  {
    hide Clean, ParseTable, KeyTable;
    var p := ParseTable(KeyTable(keys));
    if HoldsKeys(p, keys) {
      ParsedIsClean(KeyTable(keys));
      forall i | 0 <= i < |keys|
        ensures Clean(keys[i].name)
      {
        assert CleanRow(p.rows[i]) && "name" in p.rows[i];
      }
    }
    if forall i :: 0 <= i < |keys| ==> Clean(keys[i].name) {
      ListingReads(keys);
    }
  }
}
