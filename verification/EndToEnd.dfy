/** From the client's values to the client's values: print, parse, check, store, answer, read back. */
module EndToEnd {
  import opened Values
  import opened RowMap
  import opened Printer
  import opened Parser
  import opened ValueRoundTrip
  import opened ItemRoundTrip
  import opened ParenSplit
  import opened CommandRoundTrip
  import opened Snapshot
  import opened TableText
  import opened ClientTable
  import opened TableRoundTrip
  import opened TableDenotes
  import opened Validation
  import opened ServerAnswers
  import S = Server
  import R = ServerRuns
  import T = Tables
  import TableRuns

  // ---- From parsed commands to executed ones ----

  function ItemValues(items: seq<Item>): (r: seq<Data>)
    ensures |r| == |items|
  {
    seq(|items|, i requires 0 <= i < |items| => if items[i].Ignored? then NullStr else items[i].d)
  }

  function Ignores(items: seq<Item>): (r: seq<bool>)
    ensures |r| == |items|
  {
    seq(|items|, i requires 0 <= i < |items| => items[i].Ignored?)
  }

  /** The change a parsed ADD or UP asks for, and the table it names. */
  function Received(c: Parser.Command, now: int, growOk: bool, lost: set<nat>): Option<(string, S.Change)> {
    match c
    case AddCommand(db, key, items) =>
      Some((db, S.Add(key.Auto?, if key.Given? then key.key else 0, ItemValues(items), now, growOk, lost)))
    case UpCommand(db, row, items) => Some((db, S.Up(row, ItemValues(items), Ignores(items), now, lost)))
    case _ => None
  }

  /**
   * The change the server makes of the client's UP: the same row, every value in its place and
   * a mark exactly where the client ignored a field.
   */
  lemma {:induction false} UpReceived(db: string, key: int, items: seq<Item>, now: int, growOk: bool, lost: set<nat>, strtod: Strtod)
    requires NameWordOk(db) && ItemsOk(Spelled(items), true) && Holdable(key)
    requires Value(StrV("_")) !in items && SplitsRight(items) && CountsRight(items)
    ensures var c := Received(ParseCommand(BuildUp(db, key, items), strtod), now, growOk, lost);
            && c.Some? && c.value.0 == db && c.value.1.Up? && c.value.1.key == key && c.value.1.now == now
            && |c.value.1.values| == |c.value.1.ignore| == |items|
            && forall i :: 0 <= i < |items| ==>
                 && (c.value.1.ignore[i] <==> items[i].Ignored?)
                 && (items[i].Value? ==> c.value.1.values[i] == items[i].d)
  {
    hide ParseCommand, BuildUp, SplitsRight, CountsRight, ItemsOk, NameWordOk;
    UpParsesIff(db, key, items, strtod);
  }

  // ---- What the client can print the parser can produce ----

  lemma {:induction false} PrintableScalar(d: Data)
    requires ScalarOk(d)
    ensures FromParser(d)
  {
  }

  lemma {:induction false} PrintableItem(d: Data)
    requires ItemOk(Value(d), false)
    ensures FromParser(d)
  {
    hide ScalarOk, Tag;
    if d.ArrayV? {
      forall i | 0 <= i < |d.elems|
        ensures FromParser(d.elems[i])
      {
        PrintableScalar(d.elems[i]);
      }
    } else {
      PrintableScalar(d);
    }
  }

  lemma {:induction false} PrintableValues(values: seq<Data>)
    requires ItemsOk(AsItems(values), false)
    ensures ItemValues(AsItems(values)) == values
    ensures forall j :: 0 <= j < |values| ==> FromParser(values[j])
  {
    hide ItemOk, FromParser;
    forall j | 0 <= j < |values|
      ensures FromParser(values[j])
    {
      assert AsItems(values)[j] == Value(values[j]);
      PrintableItem(values[j]);
    }
  }

  // ---- ADD, then GET ----

  /** The key a row sent with this key is stored under. */
  function StoredKey(t: T.Table, key: AddKey): int {
    if key.Auto? || key.key < 0 then t.nextKey else key.key
  }

  /** The values are for this table: as many as its columns, none mislabelled, and the counter has room. */
  ghost predicate Sendable(t: T.Table, key: AddKey, values: seq<Data>, now: int) {
    && T.Sound(t) && Usable(t) && NameWordOk(t.name) && ItemsOk(AsItems(values), false) && IsI64(now)
    && (key.Given? ==> Holdable(key.key)) && StoredKey(t, key) < TWO_31 - 1
    && |values| == |t.fields| - 1
    && forall j :: 0 <= j < |values| ==> !Mislabelled(values[j], t.fields[j + 1].ty)
  }

  function ChangeFor(key: AddKey, values: seq<Data>, now: int, growOk: bool, lost: set<nat>): S.Change {
    S.Add(key.Auto?, if key.Given? then key.key else 0, values, now, growOk, lost)
  }

  /** The server accepts what it makes of the client's text. */
  ghost predicate Accepts(t: T.Table, c: Option<(string, S.Change)>)
    requires Usable(t)
  {
    c.Some? && c.value.0 == t.name && c.value.1.Add? && S.ExecuteAdd(t, c.value.1).1.Number?
  }

  lemma {:induction false} ChangeForOk(t: T.Table, key: AddKey, values: seq<Data>, now: int, growOk: bool, lost: set<nat>)
    requires Sendable(t, key, values, now)
    ensures R.ChangeOk(t, ChangeFor(key, values, now, growOk, lost))
  {
    hide T.Sound, FromParser, Mislabelled, ItemsOk;
    PrintableValues(values);
  }

  /** The server accepts a command that holds the values exactly when they pass its checks and the key is free. */
  lemma {:induction false} ChangeAcceptedIff(t: T.Table, key: AddKey, values: seq<Data>, now: int, growOk: bool, lost: set<nat>)
    requires Sendable(t, key, values, now)
    ensures S.ExecuteAdd(t, ChangeFor(key, values, now, growOk, lost)).1.Number? <==>
      && CheckAddedValues(t.fields, values, 0) == 0 && t.rowsCount < T.MAX_ROW_CAPACITY
      && StoredKey(t, key) !in t.rows.Contents()
  {
    hide FromParser, Mislabelled, ItemsOk, CheckAddedValues, T.AddRow;
    PrintableValues(values);
    if CheckAddedValues(t.fields, values, 0) == 0 {
      AddedValuesTyped(t.fields, values, 0);
      var requested := if key.Auto? then -1 else key.key;
      TableRuns.AddEffect(t, requested, values, now, growOk, lost);
    }
  }

  /**
   * The server accepts the client's ADD exactly when the text splits and counts right, the
   * values pass the type check, the table has room and the key is free.
   */
  lemma {:induction false} AddAcceptedIff(
      t: T.Table, key: AddKey, values: seq<Data>, now: int, growOk: bool, lost: set<nat>, strtod: Strtod)
    requires Sendable(t, key, values, now)
    ensures var c := Received(ParseCommand(BuildAdd(t.name, key, values), strtod), now, growOk, lost);
            var items := AsItems(values);
            && (Accepts(t, c) <==>
                  && SplitsRight(items) && CountsRight(items)
                  && CheckAddedValues(t.fields, values, 0) == 0 && t.rowsCount < T.MAX_ROW_CAPACITY
                  && StoredKey(t, key) !in t.rows.Contents())
            && (Accepts(t, c) ==> c == Some((t.name, ChangeFor(key, values, now, growOk, lost))))
  {
    hide T.Sound, ParseCommand, BuildAdd, SplitsRight, CountsRight, ItemsOk, NameWordOk, T.AddRow, CheckAddedValues, Mislabelled, Usable;
    AddParsesIff(t.name, key, values, strtod);
    PrintableValues(values);
    ChangeAcceptedIff(t, key, values, now, growOk, lost);
    var parsed := ParseCommand(BuildAdd(t.name, key, values), strtod);
    var c := Received(parsed, now, growOk, lost);
    if Accepts(t, c) {
      assert |c.value.1.values| == |values|;
      assert Holds(parsed, |values|);
    }
  }

  /** All columns, in order. */
  function EveryColumn(n: nat): (columns: seq<nat>)
    ensures |columns| == n && forall i :: 0 <= i < n ==> columns[i] == i
  {
    seq(n, i requires 0 <= i < n => i)
  }

  lemma {:induction false} AllColumns(fields: seq<Field>, row: Row)
    requires |row.values| == |fields|
    ensures Picks(fields, [], EveryColumn(|fields|)) && Indices(EveryColumn(|fields|), |fields|)
    ensures PickFields(fields, EveryColumn(|fields|)) == fields
    ensures PickRows([row], EveryColumn(|fields|), |fields|) == [row]
  {
    assert PickRow(row, EveryColumn(|fields|)).values == row.values;
  }

  /**
   * The client sends values with ADD and asks for the row with GET: what it reads holds
   * exactly the values it sent, behind the key and with the time of storing, if and only if
   * the ADD was accepted, which AddAcceptedIff decides, and the names and values are readable.
   */
  lemma {:induction false} AddReadBackIff(
      t: T.Table, key: AddKey, values: seq<Data>, now: int, growOk: bool, lost: set<nat>, strtod: Strtod, g: int -> string)
    requires Sendable(t, key, values, now)
    requires Accepts(t, Received(ParseCommand(BuildAdd(t.name, key, values), strtod), now, growOk, lost))
    ensures var t' := S.ExecuteAdd(t, ChangeFor(key, values, now, growOk, lost)).0;
            var row := Row([IntV(StoredKey(t, key))] + values, now, now);
            && T.Sound(t') && Usable(t') && t'.fields == t.fields && Shaped(t.fields, [row])
            && t'.rows.Contents() == t.rows.Contents()[StoredKey(t, key) := row]
            && var reply := S.Answer(t', S.Get(StoredKey(t, key), []), g);
               && reply.Text?
               && (ClientHolds(ParseTable(reply.body), t.fields, [row], g)
                  <==> HeadersReadable(Headers(t.fields)) && Readable(t.fields, row, g))
  {
    hide T.Sound, ParseCommand, BuildAdd, SplitsRight, CountsRight, ItemsOk, T.AddRow, CheckAddedValues, Mislabelled,
      ClientHolds, ParseTable, HeadersReadable, Readable, S.Answer, S.ExecuteAdd, Headers;
    AddAcceptedIff(t, key, values, now, growOk, lost, strtod);
    ChangeForOk(t, key, values, now, growOk, lost);
    var cmd := ChangeFor(key, values, now, growOk, lost);
    AddReplyIff(t, cmd);
    R.ChangeKeeps(t, cmd);
    ReadBackStored(t, S.ExecuteAdd(t, cmd).0, StoredKey(t, key), Row([IntV(StoredKey(t, key))] + values, now, now), g);
  }

  lemma {:induction false} ReadBackStored(t: T.Table, t': T.Table, key: int, row: Row, g: int -> string)
    requires T.Sound(t') && Usable(t') && t'.fields == t.fields && |row.values| == |t.fields|
    requires key in t'.rows.Contents() && t'.rows.Contents()[key] == row
    ensures var reply := S.Answer(t', S.Get(key, []), g);
            && reply.Text? && Shaped(t.fields, [row])
            && (ClientHolds(ParseTable(reply.body), t.fields, [row], g)
               <==> HeadersReadable(Headers(t.fields)) && Readable(t.fields, row, g))
  {
    hide T.Sound, FormatRows, ClientHolds, ParseTable, HeadersReadable, Readable, S.Answer, Headers, PickRows, PickFields, Picks;
    AllColumns(t.fields, row);
    GetReply(t', key, [], EveryColumn(|t.fields|), g);
    assert [row][0] == row && forall i :: 0 <= i < |[row]| ==> [row][i] == row;
  }
}
