/** What the replies of a running server mean. */
module ServerAnswers {
  import opened Values
  import opened RowMap
  import opened Connections
  import opened AuthKeys
  import opened Snapshot
  import opened Catalog
  import opened TableText
  import opened Validation
  import opened TableDenotes
  import opened ValueMeaning
  import opened TableMeaning
  import opened Server
  import opened Sessions
  import opened ServerRuns
  import T = Tables
  import FieldIndex
  import TableRuns
  import Searches
  import ClientTable
  import TableRoundTrip

  // ---- ADD ----

  /**
   * An ADD answered with a number has stored exactly one new row, under a key the table did
   * not hold. The number is that key exactly when the key was automatic or not negative.
   */
  lemma {:induction false} AddReplyIff(t: T.Table, cmd: Change)
    requires T.Sound(t) && Usable(t) && cmd.Add? && ChangeOk(t, cmd) && ExecuteAdd(t, cmd).1.Number?
    ensures var (t', reply) := ExecuteAdd(t, cmd);
            var key := if cmd.autoKey || cmd.key < 0 then t.nextKey else cmd.key;
            && T.Sound(t') && key !in t.rows.Contents()
            && t'.rows.Contents() == t.rows.Contents()[key := Row([IntV(key)] + cmd.values, cmd.now, cmd.now)]
            && (reply.n == key <==> cmd.autoKey || cmd.key >= 0)
  {
    hide T.AddRow, CheckAddedValues, FromParser, Mislabelled, Typed;
    var requested := if cmd.autoKey then -1 else cmd.key;
    AddedValuesTyped(t.fields, cmd.values, 0);
    TableRuns.AddEffect(t, requested, cmd.values, cmd.now, cmd.growOk, cmd.lost);
    AddCounter(t, requested, cmd.values, cmd.now, cmd.growOk, cmd.lost);
  }

  lemma {:induction false} AddCounter(t: T.Table, key: int, values: seq<Data>, now: int, growOk: bool, lost: set<nat>)
    requires Usable(t)
    ensures key < 0 && T.AddRow(t, key, values, now, growOk, lost).1 == 0 ==>
      T.AddRow(t, key, values, now, growOk, lost).0.nextKey == t.nextKey + 1
  {
  }

  // ---- SEARCH ----

  lemma {:induction false} ScanShaped(fields: seq<Field>, nodes: Chain, f: nat, v: Data, ty: FieldType)
    requires T.RowsOk(fields, nodes)
    ensures Shaped(fields, T.Scan(nodes, f, v, ty))
    decreases |nodes|
  {
    hide CompareValues;
    if nodes != [] {
      assert T.RowOk(fields, nodes[0]);
      ScanShaped(fields, nodes[1..], f, v, ty);
    }
  }

  lemma {:induction false} LookedUpShaped(t: T.Table, keys: seq<int>)
    requires T.Sound(t)
    ensures Shaped(t.fields, T.RowsOf(t.rows, keys))
    decreases |keys|
  {
    hide Flatten;
    if keys != [] {
      LookedUpShaped(t, keys[1..]);
      FindRefines(t.rows, keys[0]);
      if t.rows.Find(keys[0]).Some? {
        StoredRowShaped(t, keys[0]);
      }
    }
  }

  lemma {:induction false} StoredRowShaped(t: T.Table, key: int)
    requires T.Sound(t) && key in t.rows.Contents()
    ensures |t.rows.Contents()[key].values| == |t.fields|
  {
    IterationOrder(t.rows);
    var n := Node(key, t.rows.Contents()[key]);
    assert n in T.Order(t);
    var i :| 0 <= i < |T.Order(t)| && T.Order(t)[i] == n;
    assert T.RowOk(t.fields, T.Order(t)[i]);
  }

  /** Whatever a SEARCH finds, stale index or not, can be shown. */
  lemma {:induction false} SearchShaped(t: T.Table, f: nat, v: Data)
    requires T.Sound(t) && Usable(t) && f < |t.fields|
    ensures Shaped(t.fields, T.Search(t, f, v))
  {
    if t.indexes[f].Enabled? && |t.indexes[f].buckets| == INDEX_BUCKETS {
      LookedUpShaped(t, FieldIndex.KeysOf(t.indexes[f].buckets, v, t.fields[f].ty.kind));
    } else {
      ScanShaped(t.fields, T.Order(t), f, v, t.fields[f].ty);
    }
  }

  // ---- GET and GET_ALL ----

  lemma {:induction false} StoredShaped(t: T.Table)
    requires T.Sound(t)
    ensures Shaped(t.fields, RowList(T.Order(t)))
    ensures |RowList(T.Order(t))| == t.rowsCount
    ensures forall k :: k in t.rows.Contents() ==> t.rows.Contents()[k] in RowList(T.Order(t))
    ensures forall row :: row in RowList(T.Order(t)) ==> exists k :: k in t.rows.Contents() && t.rows.Contents()[k] == row
  {
    IterationOrder(t.rows);
    var nodes, rows, m := T.Order(t), RowList(T.Order(t)), t.rows.Contents();
    forall i | 0 <= i < |rows|
      ensures |rows[i].values| == |t.fields|
    {
      assert T.RowOk(t.fields, nodes[i]);
    }
    forall k | k in m
      ensures m[k] in rows
    {
      assert Node(k, m[k]) in nodes;
      var i :| 0 <= i < |nodes| && nodes[i] == Node(k, m[k]);
      assert rows[i] == m[k];
    }
    forall row | row in rows
      ensures exists k :: k in m && m[k] == row
    {
      var i :| 0 <= i < |rows| && rows[i] == row;
      assert nodes[i] in nodes;
      assert nodes[i].key in m && m[nodes[i].key] == row;
    }
  }

  // ---- Columns ----

  /** f is the first field of this name. */
  predicate FirstNamed(fields: seq<Field>, name: string, f: nat) {
    f < |fields| && fields[f].name == name && forall j :: 0 <= j < f ==> fields[j].name != name
  }

  /** The columns asked for: all in order when none is named, else the named ones in the order asked. */
  predicate Picks(fields: seq<Field>, names: seq<string>, columns: seq<nat>) {
    if names == [] then |columns| == |fields| && forall i :: 0 <= i < |fields| ==> columns[i] == i
    else |columns| == |names| && forall i :: 0 <= i < |names| ==> FirstNamed(fields, names[i], columns[i])
  }

  /** Some name asked for is no field's. */
  ghost predicate NamesUnknown(fields: seq<Field>, names: seq<string>) {
    exists i :: 0 <= i < |names| && forall j :: 0 <= j < |fields| ==> fields[j].name != names[i]
  }

  lemma {:induction false} PlaceFirst(fields: seq<Field>, name: string, f: nat)
    ensures FirstNamed(fields, name, f) <==> FieldPlace(fields, name) == f
  {
  }

  lemma {:induction false} ColumnsIff(fields: seq<Field>, names: seq<string>, columns: seq<nat>)
    ensures Columns(fields, names) == Some(columns) <==> Picks(fields, names, columns)
  {
    hide FieldPlace, FirstNamed;
    if names == [] {
      if Picks(fields, names, columns) {
        assert columns == Columns(fields, names).value;
      }
    } else if |columns| == |names| {
      forall i | 0 <= i < |names|
        ensures FirstNamed(fields, names[i], columns[i]) <==> FieldPlace(fields, names[i]) == columns[i]
      {
        PlaceFirst(fields, names[i], columns[i]);
      }
      if Picks(fields, names, columns) {
        assert !(exists i :: 0 <= i < |names| && FieldPlace(fields, names[i]) < 0);
        assert columns == Columns(fields, names).value;
      }
    }
  }

  lemma {:induction false} ColumnsNoneIff(fields: seq<Field>, names: seq<string>)
    ensures Columns(fields, names) == None <==> NamesUnknown(fields, names)
  {
    hide FieldPlaceFrom;
    forall i | 0 <= i < |names|
      ensures FieldPlace(fields, names[i]) < 0 <==> forall j :: 0 <= j < |fields| ==> fields[j].name != names[i]
    {
      var r := FieldPlace(fields, names[i]);
      if r >= 0 {
        assert fields[r].name == names[i];
      }
    }
    if NamesUnknown(fields, names) {
      var i :| 0 <= i < |names| && forall j :: 0 <= j < |fields| ==> fields[j].name != names[i];
      assert FieldPlace(fields, names[i]) < 0;
    }
    if exists i :: 0 <= i < |names| && FieldPlace(fields, names[i]) < 0 {
      var i :| 0 <= i < |names| && FieldPlace(fields, names[i]) < 0;
      assert forall j :: 0 <= j < |fields| ==> fields[j].name != names[i];
    }
  }

  lemma {:induction false} PicksIndices(fields: seq<Field>, names: seq<string>, columns: seq<nat>)
    requires Picks(fields, names, columns)
    ensures Indices(columns, |fields|)
  {
    if names != [] {
      forall i | 0 <= i < |columns|
        ensures columns[i] < |fields|
      {
        assert FirstNamed(fields, names[i], columns[i]);
      }
    }
  }

  // ---- Replies ----

  /**
   * The reply is the table of these columns of these rows: the client that reads it holds
   * exactly their values if and only if there are rows and they are readable; with no rows
   * it holds an empty table.
   */
  ghost predicate Tells(reply: Reply, fields: seq<Field>, columns: seq<nat>, rows: seq<Row>, g: int -> string)
    requires Indices(columns, |fields|) && Shaped(fields, rows)
  {
    var shown, picked := PickFields(fields, columns), PickRows(rows, columns, |fields|);
    && reply == Text(FormatRows(shown, picked, g))
    && (rows == [] ==> ClientTable.ParseTable(reply.body) == ClientTable.Parsed([], []))
    && (ClientHolds(ClientTable.ParseTable(reply.body), shown, picked, g)
       <==> && rows != [] && TableRoundTrip.HeadersReadable(Headers(shown))
            && forall i :: 0 <= i < |rows| ==> TableRoundTrip.Readable(shown, picked[i], g))
  }

  lemma {:induction false} ShowTells(fields: seq<Field>, columns: seq<nat>, rows: seq<Row>, g: int -> string)
    requires Indices(columns, |fields|) && Shaped(fields, rows) && RowsTyped(fields, rows)
    ensures Tells(Show(fields, columns, rows, g), fields, columns, rows, g)
  {
    hide FormatRows, ClientHolds, TableRoundTrip.HeadersReadable, TableRoundTrip.Readable, ClientTable.ParseTable, Headers, Typed;
    var shown, picked := PickFields(fields, columns), PickRows(rows, columns, |fields|);
    forall i, j | 0 <= i < |picked| && 0 <= j < |shown|
      ensures Typed(picked[i].values[j], shown[j].ty)
    {
      assert picked[i] == PickRow(rows[i], columns);
    }
    TableHoldsIff(shown, picked, g);
    if rows == [] {
      assert picked == [];
      TableRoundTrip.EmptyTable(shown, g);
    }
  }

  lemma {:induction false} StoredTyped(t: T.Table, rows: seq<Row>)
    requires T.Sound(t) && forall i :: 0 <= i < |rows| ==> exists k :: k in t.rows.Contents() && t.rows.Contents()[k] == rows[i]
    ensures Shaped(t.fields, rows) && RowsTyped(t.fields, rows)
  {
    hide Typed, T.DoublingOf16;
    TableRuns.SoundSplits(t);
    forall i | 0 <= i < |rows|
      ensures |rows[i].values| == |t.fields| && forall j :: 0 <= j < |t.fields| ==> Typed(rows[i].values[j], t.fields[j].ty)
    {
      var k :| k in t.rows.Contents() && t.rows.Contents()[k] == rows[i];
      assert T.RowOk(t.fields, Node(k, rows[i]));
    }
  }

  /** A name that is no field's is refused, in the list of columns and as the field to search. */
  lemma {:induction false} UnknownNamesRefused(t: T.Table, query: Query, g: int -> string)
    requires Usable(t) && !query.Count?
    requires NamesUnknown(t.fields, query.columns) || (query.Find? && NamesUnknown(t.fields, [query.field]))
    ensures Answer(t, query, g) == INVALID_FIELD
  {
    hide Columns, FieldPlaceFrom, FieldPlace, NamesUnknown;
    ColumnsNoneIff(t.fields, query.columns);
    if query.Find? && NamesUnknown(t.fields, [query.field]) {
      PlaceUnknown(t.fields, query.field);
    }
  }

  lemma {:induction false} PlaceUnknown(fields: seq<Field>, name: string)
    requires NamesUnknown(fields, [name])
    ensures FieldPlace(fields, name) == -1
  {
    assert forall j :: 0 <= j < |fields| ==> fields[j].name != [name][0];
  }

  /** GET tells the row stored under the key, or that there is none. */
  lemma {:induction false} GetReply(t: T.Table, key: int, names: seq<string>, columns: seq<nat>, g: int -> string)
    requires T.Sound(t) && Usable(t) && Picks(t.fields, names, columns) && Indices(columns, |t.fields|)
    ensures key !in t.rows.Contents() ==> Answer(t, Get(key, names), g) == ROW_NOT_FOUND
    ensures key in t.rows.Contents() ==>
      && Shaped(t.fields, [t.rows.Contents()[key]])
      && Tells(Answer(t, Get(key, names), g), t.fields, columns, [t.rows.Contents()[key]], g)
  {
    hide T.Sound, Columns, Tells, Show, Picks;
    ColumnsIff(t.fields, names, columns);
    FindRefinesSound(t, key);
    if key in t.rows.Contents() {
      var rows := [t.rows.Contents()[key]];
      assert rows[0] == t.rows.Contents()[key];
      StoredTyped(t, rows);
      ShowTells(t.fields, columns, rows, g);
    }
  }

  lemma {:induction false} FindRefinesSound(t: T.Table, key: int)
    requires T.Sound(t)
    ensures t.rows.Valid() && |t.rows.buckets| > 0
    ensures t.rows.Find(key) == if key in t.rows.Contents() then Some(t.rows.Contents()[key]) else None
  {
    FindRefines(t.rows, key);
  }

  /** GET_ALL tells all stored rows, each once and as many as the table counts. */
  lemma {:induction false} GetAllReply(t: T.Table, names: seq<string>, columns: seq<nat>, g: int -> string) returns (rows: seq<Row>)
    requires T.Sound(t) && Usable(t) && Picks(t.fields, names, columns) && Indices(columns, |t.fields|)
    ensures |rows| == |t.rows.Contents()| == t.rowsCount
    ensures forall k :: k in t.rows.Contents() ==> t.rows.Contents()[k] in rows
    ensures forall row :: row in rows ==> exists k :: k in t.rows.Contents() && t.rows.Contents()[k] == row
    ensures Shaped(t.fields, rows) && Tells(Answer(t, GetAll(names), g), t.fields, columns, rows, g)
  {
    hide Columns, Tells, Show, Picks, RowList, T.DoublingOf16, T.RowOk;
    rows := RowList(T.Order(t));
    ColumnsIff(t.fields, names, columns);
    StoredShaped(t);
    forall i | 0 <= i < |rows|
      ensures exists k :: k in t.rows.Contents() && t.rows.Contents()[k] == rows[i]
    {
      assert rows[i] in rows;
    }
    StoredTyped(t, rows);
    ShowTells(t.fields, columns, rows, g);
  }

  /** SEARCH tells, in iteration order, exactly the stored rows whose cell matches the value. */
  lemma {:induction false} FindReply(
      t: T.Table, field: string, f: nat, v: Data, names: seq<string>, columns: seq<nat>, g: int -> string)
    returns (rows: seq<Row>, at: seq<nat>)
    requires T.Sound(t) && Usable(t) && T.Current(t) && Picks(t.fields, names, columns) && Indices(columns, |t.fields|)
    requires FirstNamed(t.fields, field, f) && HasKind(v, t.fields[f].ty.kind)
    ensures forall i :: 0 <= i < |T.Order(t)| ==>
      f < |T.Order(t)[i].row.values| && Typed(T.Order(t)[i].row.values[f], t.fields[f].ty)
    ensures PicksMatches(T.Order(t), f, v, t.fields[f].ty, rows, at)
    ensures Shaped(t.fields, rows) && Tells(Answer(t, Find(field, v, names), g), t.fields, columns, rows, g)
  {
    hide Columns, Tells, Show, Picks, T.Current, T.Search, Typed, HasKind, CellMatches, T.DoublingOf16, T.RowOk;
    rows := T.Search(t, f, v);
    at := SearchMeaning(t, f, v);
    ColumnsIff(t.fields, names, columns);
    PlaceFirst(t.fields, field, f);
    IterationOrder(t.rows);
    forall i | 0 <= i < |rows|
      ensures exists k :: k in t.rows.Contents() && t.rows.Contents()[k] == rows[i]
    {
      var n := T.Order(t)[at[i]];
      assert n in T.Order(t);
      assert n.key in t.rows.Contents() && t.rows.Contents()[n.key] == rows[i];
    }
    StoredTyped(t, rows);
    ShowTells(t.fields, columns, rows, g);
  }

  lemma {:induction false} CountReply(t: T.Table, g: int -> string)
    requires T.Sound(t) && Usable(t)
    ensures Answer(t, Count, g) == Number(|t.rows.Contents()|)
  {
  }

  // ---- Over runs ----

  ghost predicate AllCurrent(tables: seq<T.Table>) {
    forall i :: 0 <= i < |tables| ==> T.Sound(tables[i]) && T.Current(tables[i])
  }

  /** In this step an UP is answered that a limit was exceeded. */
  ghost predicate LimitStep(env: Env, s: State, e: Event)
    requires AllUsable(s.tables) && EventFormed(e)
  {
    && e.Ready? && e.input.Line? && e.input.command.Write? && e.input.command.change.Up?
    && Step(env, s, e).1 == LIMIT_EXCEEDED
  }

  lemma {:induction false} WriteCurrent(tables: seq<T.Table>, name: string, change: Change)
    requires TablesOk(tables) && AllCurrent(tables) && WellFormedChange(change) && CommandOk(tables, Write(name, change))
    requires !LimitHit(change, ExecuteWrite(tables, name, change).1)
    ensures AllCurrent(ExecuteWrite(tables, name, change).0)
  {
    hide T.Sound, T.Current, Usable, ExecuteOn, Changed, FindDb, ChangeOk;
    if FindDb(tables, name).Some? {
      var t := FindDb(tables, name).value;
      FoundSound(tables, name);
      ChangeKeeps(t, change);
      ChangedEffect(tables, ExecuteOn(t, change).0, name);
    }
  }

  lemma {:induction false} ExecuteCurrent(env: Env, tables: seq<T.Table>, keys: seq<AuthKey>, who: string, cmd: Command)
    requires TablesOk(tables) && AllCurrent(tables) && WellFormed(cmd) && CommandOk(tables, cmd)
    requires cmd.Write? ==> !LimitHit(cmd.change, Execute(env, tables, keys, who, cmd).2)
    ensures AllCurrent(Execute(env, tables, keys, who, cmd).0)
  {
    hide T.Sound, T.Current, ExecuteNewTable, ExecuteRead, RemoveDb, AddKey, DelKey, ExecuteWrite, KeyTable, ChangeOk, FindDb;
    match cmd {
      case Write(name, change) => WriteCurrent(tables, name, change);
      case NewTable(name, fields) => NewTableCurrent(env, tables, name, fields);
      case DropTable(name) => DropTableCurrent(tables, name);
      case _ =>
    }
  }

  lemma {:induction false} NewTableCurrent(env: Env, tables: seq<T.Table>, name: string, fields: seq<Field>)
    requires AllCurrent(tables)
    ensures AllCurrent(ExecuteNewTable(env, tables, name, fields).0)
  {
    hide T.Sound, T.Current, FindDb, T.Create;
    if fields != [] {
      Searches.CreateSound(env.hash, CopyName(name), fields);
    }
  }

  lemma {:induction false} DropTableCurrent(tables: seq<T.Table>, name: string)
    requires TablesOk(tables) && AllCurrent(tables)
    ensures AllCurrent(RemoveDb(tables, name).0)
  {
    hide T.Sound, T.Current, Usable, RemoveDb, FindDb;
    RemoveDbEffect(tables, name, name);
    var after := RemoveDb(tables, name).0;
    forall i | 0 <= i < |after|
      ensures T.Sound(after[i]) && T.Current(after[i])
    {
      assert after[i] in tables;
    }
  }

  lemma {:induction false} StepCurrent(env: Env, s: State, e: Event)
    requires ServerOk(s) && AllCurrent(s.tables) && EventFormed(e) && EventOk(s, e) && !LimitStep(env, s, e)
    ensures AllCurrent(Step(env, s, e).0.tables)
  {
    hide AllCurrent, AllSound, Execute, Granted, Joined, Left, LevelOf, NameOf, VerifyToken, CommandOk;
    if Step(env, s, e).0.tables != s.tables {
      ChangeIsAdmins(env, s, e);
      ExecuteCurrent(env, s.tables, s.keys, CopyName(NameOf(s.clients, e.fd)), e.input.command);
    }
  }

  /**
   * After every run of the whole server in which no UP was answered that a limit was
   * exceeded, in every table, every SEARCH answers with exactly the rows of the full scan.
   */
  lemma {:induction false} RunAnswersExact(env: Env, states: seq<State>, events: seq<Event>, n: nat)
    requires IsRun(env, states, events) && AllCurrent(states[0].tables) && n < |states|
    requires forall i :: 0 <= i < n && ServerOk(states[i]) && EventFormed(events[i]) ==> !LimitStep(env, states[i], events[i])
    ensures AllCurrent(states[n].tables)
    ensures forall i :: 0 <= i < |states[n].tables| ==> Searches.SearchExact(states[n].tables[i])
    decreases n
  {
    hide ServerOk, EventOk, Step, T.Current, T.Sound, LimitStep;
    if n > 0 {
      RunAnswersExact(env, states, events, n - 1);
      RunKeeps(env, states, events, n - 1);
      assert Next(env, states[n - 1], events[n - 1], states[n]);
      StepCurrent(env, states[n - 1], events[n - 1]);
    }
    forall i | 0 <= i < |states[n].tables|
      ensures Searches.SearchExact(states[n].tables[i])
    {
      Searches.CurrentSearchIsScan(states[n].tables[i]);
    }
  }

  // ---- LIST_KEYS ----

  ghost predicate NamesFit(keys: seq<AuthKey>) {
    forall i :: 0 <= i < |keys| ==> |keys[i].name| <= NAME_LIMIT
  }

  lemma {:induction false} KeyLinesFit(keys: seq<AuthKey>)
    requires NamesFit(keys)
    ensures |KeyLines(keys)| <= 80 * |keys|
    decreases |keys|
  {
    if keys != [] {
      assert |KeyLine(keys[0])| <= 80;
      KeyLinesFit(keys[1..]);
    }
  }

  /** The listing of a full store and its terminator fit the buffer, so no line is ever cut. */
  lemma {:induction false} KeyTableFits(keys: seq<AuthKey>)
    requires KeysOk(keys) && NamesFit(keys)
    ensures |KeyTable(keys)| < 64 + AUTH_MAX_KEYS * (AUTH_KEY_NAME_MAX + 16)
  {
    KeyLinesFit(keys);
  }
}
