/**
 * The server: connections, keys, tables, and the step it takes on one event. Outside
 * inputs are part of the event: descriptors, parsed commands, clock readings, fresh
 * tokens and allocation outcomes.
 */
module Server {
  import opened Values
  import opened RowMap
  import opened Connections
  import opened AuthKeys
  import opened Snapshot
  import opened Catalog
  import opened TableText
  import opened Validation
  import T = Tables

  /** The foreign functions: key hash, double formatting, password check. */
  datatype Env = Env(hash: int -> nat, g: int -> string, verify: Verify)

  datatype State = State(
    clients: seq<Client>,
    max: nat,
    keys: seq<AuthKey>,
    tables: seq<T.Table>,
    running: bool)

  /** Commands that change the rows or indexes of one table. */
  datatype Change =
    | Add(autoKey: bool, key: int, values: seq<Data>, now: int, growOk: bool, lost: set<nat>)
    | Up(key: int, values: seq<Data>, ignore: seq<bool>, now: int, lost: set<nat>)
    | Del(key: int, lost: set<nat>)
    | NewIndex(field: string, allocOk: bool)

  /** Commands that read one table. */
  datatype Query =
    | Get(key: int, columns: seq<string>)
    | GetAll(columns: seq<string>)
    | Find(field: string, value: Data, columns: seq<string>)
    | Count

  datatype Command =
    | Malformed(error: string)
    | Auth(token: string)
    | Whoami
    | Read(table: string, query: Query)
    | Write(table: string, change: Change)
    | NewTable(table: string, fields: seq<Field>)
    | DropTable(table: string)
    | NewKey(name: string, token: string, hash: Option<string>, role: nat)
    | DropKey(name: string)
    | ListKeys

  datatype Input = Hangup | Line(command: Command)

  /** What epoll reports: the signal descriptor, the listening socket, or any other descriptor. */
  datatype Event =
    | Signal
    | Connect(fd: int, watched: bool)
    | Ready(fd: int, input: Input)

  datatype Reply = Silent | Message(text: string) | Number(n: int) | Text(body: string)

  // ---- Messages ----

  const INVALID_DATA: Reply := Message("Invalid data provided to operation")
  const DB_NOT_FOUND: Reply := Message("Database not found")
  const DB_EXISTS: Reply := Message("Database already exists")
  const OUT_OF_MEMORY: Reply := Message("Memory allocation failed")
  const ROW_NOT_FOUND: Reply := Message("Row not found")
  const INVALID_FIELD: Reply := Message("Invalid field specified")
  const TYPE_MISMATCH: Reply := Message("Data type mismatch")
  const INDEX_EXISTS: Reply := Message("Index already exists")
  const LIMIT_EXCEEDED: Reply := Message("Limit exceeded")
  const UNKNOWN_ERROR: Reply := Message("Unknown error occurred")
  const MAX_FIELDS_PER_DB: nat := 64

  // ---- Reading ----

  function FieldPlace(fields: seq<Field>, name: string): (r: int)
    ensures -1 <= r < |fields| && (r >= 0 ==> fields[r].name == name)
    ensures forall i :: 0 <= i < (if r >= 0 then r else |fields|) ==> fields[i].name != name
  {
    FieldPlaceFrom(fields, name, 0)
  }

  function FieldPlaceFrom(fields: seq<Field>, name: string, i: nat): (r: int)
    requires i <= |fields|
    ensures -1 <= r < |fields| && (r >= 0 ==> i <= r && fields[r].name == name)
    ensures forall j :: i <= j < (if r >= 0 then r else |fields|) ==> fields[j].name != name
    decreases |fields| - i
  {
    if i == |fields| then -1 else if fields[i].name == name then i else FieldPlaceFrom(fields, name, i + 1)
  }

  /** The columns to show: all of them when none is named; nothing when a name is unknown. */
  function Columns(fields: seq<Field>, names: seq<string>): (r: Option<seq<nat>>)
    ensures r.Some? ==> Indices(r.value, |fields|)
  {
    if names == [] then Some(seq(|fields|, i requires 0 <= i < |fields| => i))
    else if exists i :: 0 <= i < |names| && FieldPlace(fields, names[i]) < 0 then None
    else Some(seq(|names|, i requires 0 <= i < |names| => FieldPlace(fields, names[i]) as nat))
  }

  /** Rows as the text table of the chosen columns. */
  function Show(fields: seq<Field>, columns: seq<nat>, rows: seq<Row>, g: int -> string): Reply
    requires Indices(columns, |fields|)
  {
    if Shaped(fields, rows) then Text(FormatRows(PickFields(fields, columns), PickRows(rows, columns, |fields|), g))
    else OUT_OF_MEMORY
  }

  function RowList(nodes: Chain): (r: seq<Row>)
    ensures |r| == |nodes| && forall i :: 0 <= i < |r| ==> r[i] == nodes[i].row
  {
    seq(|nodes|, i requires 0 <= i < |nodes| => nodes[i].row)
  }

  function KeyLine(k: AuthKey): string {
    "| " + k.name + " | " + (if k.role == ROLE_ADMIN then "admin" else "readonly") + " |\n"
  }

  function KeyLines(keys: seq<AuthKey>): string {
    if keys == [] then [] else KeyLine(keys[0]) + KeyLines(keys[1..])
  }

  function KeyTable(keys: seq<AuthKey>): string {
    "| name | role |\n" + "| - | - |\n" + KeyLines(keys)
  }

  /** The answer to a query on a table. */
  function Answer(t: T.Table, query: Query, g: int -> string): Reply
    requires Usable(t)
  {
    match query
    case Count => Number(t.rowsCount)
    case Get(key, names) =>
      (match Columns(t.fields, names)
       case None => INVALID_FIELD
       case Some(columns) =>
         match t.rows.Find(key)
         case None => ROW_NOT_FOUND
         case Some(row) => Show(t.fields, columns, [row], g))
    case GetAll(names) =>
      (match Columns(t.fields, names)
       case None => INVALID_FIELD
       case Some(columns) => Show(t.fields, columns, RowList(T.Order(t)), g))
    case Find(field, value, names) =>
      var f := FieldPlace(t.fields, field);
      if f < 0 then INVALID_FIELD
      else
        match Columns(t.fields, names)
        case None => INVALID_FIELD
        case Some(columns) => Show(t.fields, columns, T.Search(t, f, value), g)
  }

  ghost predicate AllUsable(tables: seq<T.Table>) {
    forall i :: 0 <= i < |tables| ==> Usable(tables[i])
  }

  lemma {:induction false} FoundUsable(tables: seq<T.Table>, name: string)
    requires AllUsable(tables)
    ensures FindDb(tables, name).Some? ==> Usable(FindDb(tables, name).value) && FindDb(tables, name).value.name == name
  {
    FindDbPlace(tables, name);
  }

  // ---- Changing tables ----

  function ExecuteNewTable(env: Env, tables: seq<T.Table>, name: string, fields: seq<Field>): (seq<T.Table>, Reply) {
    if fields == [] then (tables, INVALID_DATA)
    else if |fields| > MAX_FIELDS_PER_DB then (tables, LIMIT_EXCEEDED)
    else
      var (after, code) := AddDb(tables, T.Create(env.hash, CopyName(name), fields));
      (after, if code == 0 then Number(|fields|) else if code == -2 then DB_EXISTS else LIMIT_EXCEEDED)
  }

  /** ADD on a table: count, types, then the row; the reply is the key. */
  function ExecuteAdd(t: T.Table, cmd: Change): (T.Table, Reply)
    requires Usable(t) && cmd.Add?
  {
    if |t.fields| - 1 != |cmd.values| then (t, TYPE_MISMATCH)
    else
      var check := CheckAddedValues(t.fields, cmd.values, 0);
      if check != 0 then (t, if check == -2 then LIMIT_EXCEEDED else TYPE_MISMATCH)
      else
        var (after, code) :=
          T.AddRow(t, if cmd.autoKey then -1 else cmd.key, cmd.values, cmd.now, cmd.growOk, cmd.lost);
        (after,
         if code == 0 then Number(if cmd.autoKey then after.nextKey - 1 else cmd.key)
         else if code == -3 then Message("Maximum row capacity reached")
         else if code == -5 then Message("Row key already exists")
         else UNKNOWN_ERROR)
  }

  function ExecuteUp(t: T.Table, cmd: Change): (T.Table, Reply)
    requires Usable(t) && cmd.Up? && |cmd.ignore| == |cmd.values|
  {
    if |t.fields| - 1 != |cmd.values| then (t, TYPE_MISMATCH)
    else
      var check := CheckUpdates(t.fields, cmd.values, cmd.ignore, 0);
      if check != 0 then (t, if check == -2 then LIMIT_EXCEEDED else TYPE_MISMATCH)
      else
        var (after, code) := T.UpdateRow(t, cmd.key, cmd.values, cmd.ignore, cmd.now, cmd.lost);
        (after,
         if code == 0 then Number(cmd.key)
         else if code == -3 then ROW_NOT_FOUND
         else if code == -5 then LIMIT_EXCEEDED
         else UNKNOWN_ERROR)
  }

  function ExecuteDel(t: T.Table, cmd: Change): (T.Table, Reply)
    requires Usable(t) && cmd.Del?
  {
    var (after, code) := T.DeleteRow(t, cmd.key, cmd.lost);
    (after, if code == 0 then Number(cmd.key) else ROW_NOT_FOUND)
  }

  function ExecuteNewIndex(t: T.Table, cmd: Change): (T.Table, Reply)
    requires Usable(t) && cmd.NewIndex?
  {
    var f := FieldPlace(t.fields, cmd.field);
    if f < 0 then (t, INVALID_FIELD)
    else if t.fields[f].ty.Array? then (t, TYPE_MISMATCH)
    else
      var (after, code) := T.CreateIndex(t, f, cmd.allocOk);
      (after,
       if code == 0 then Number(f)
       else if code == -2 then INDEX_EXISTS
       else if code == -3 then OUT_OF_MEMORY
       else UNKNOWN_ERROR)
  }

  predicate WellFormedChange(cmd: Change) {
    cmd.Up? ==> |cmd.ignore| == |cmd.values|
  }

  function ExecuteOn(t: T.Table, cmd: Change): (T.Table, Reply)
    requires Usable(t) && WellFormedChange(cmd)
  {
    match cmd
    case Add(_, _, _, _, _, _) => ExecuteAdd(t, cmd)
    case Up(_, _, _, _, _) => ExecuteUp(t, cmd)
    case Del(_, _) => ExecuteDel(t, cmd)
    case NewIndex(_, _) => ExecuteNewIndex(t, cmd)
  }

  // ---- One command ----

  predicate WellFormed(cmd: Command) {
    cmd.Write? ==> WellFormedChange(cmd.change)
  }

  function ExecuteWrite(tables: seq<T.Table>, name: string, change: Change): (seq<T.Table>, Reply)
    requires AllUsable(tables) && WellFormedChange(change)
  {
    match FindDb(tables, name)
    case None => (tables, DB_NOT_FOUND)
    case Some(t) =>
      FoundUsable(tables, name);
      var (after, reply) := ExecuteOn(t, change);
      (Changed(tables, after), reply)
  }

  function ExecuteRead(tables: seq<T.Table>, name: string, query: Query, g: int -> string): Reply
    requires AllUsable(tables)
  {
    match FindDb(tables, name)
    case None => DB_NOT_FOUND
    case Some(t) => FoundUsable(tables, name); Answer(t, query, g)
  }

  /** An authorised command: tables, keys and reply afterwards. */
  function Execute(env: Env, tables: seq<T.Table>, keys: seq<AuthKey>, who: string, cmd: Command)
    : (seq<T.Table>, seq<AuthKey>, Reply)
    requires AllUsable(tables) && WellFormed(cmd)
  {
    match cmd
    case Malformed(error) => (tables, keys, Message(error))
    case Auth(_) => (tables, keys, UNKNOWN_ERROR)
    case Whoami => (tables, keys, Text(CopyName(who)))
    case Read(name, query) => (tables, keys, ExecuteRead(tables, name, query, env.g))
    case Write(name, change) =>
      var (after, reply) := ExecuteWrite(tables, name, change);
      (after, keys, reply)
    case NewTable(name, fields) =>
      var (after, reply) := ExecuteNewTable(env, tables, name, fields);
      (after, keys, reply)
    case DropTable(name) =>
      var (after, code) := RemoveDb(tables, name);
      (after, keys, if code == 0 then Number(1) else DB_NOT_FOUND)
    case NewKey(name, token, hash, role) =>
      var (after, code) := AddKey(keys, name, hash, role);
      (tables, after,
       if code == 0 then Text(token) else Message("Failed to add key: store full or name already exists"))
    case DropKey(name) =>
      var (after, code) := DelKey(keys, name);
      (tables, after, if code == 0 then Number(1) else Message("Key not found"))
    case ListKeys => (tables, keys, Text(KeyTable(keys)))
  }

  /** The commands a read-only client may give. */
  predicate ReadsOnly(cmd: Command) {
    cmd.Read? || cmd.Whoami?
  }

  function LevelNumber(level: Level): int {
    match level case NoAuth => 0 case ReadOnly => 1 case Admin => 2
  }

  /** A line from a client: AUTH, or a command at the client's level. */
  function Serve(env: Env, s: State, fd: int, cmd: Command): (State, Reply)
    requires AllUsable(s.tables) && WellFormed(cmd)
  {
    if cmd.Malformed? then (s, Message(cmd.error))
    else if cmd.Auth? then
      var (level, name) := VerifyToken(s.keys, cmd.token, env.verify);
      if level == NoAuth then (s, Message("ERR Invalid token"))
      else (s.(clients := Granted(s.clients, fd, level, name)), Number(LevelNumber(level)))
    else
      var level := LevelOf(s.clients, fd);
      if level == NoAuth then (s, Message("ERR Authentication required"))
      else if level == ReadOnly && !ReadsOnly(cmd) then (s, Message("ERR Permission denied"))
      else
        var (tables, keys, reply) := Execute(env, s.tables, s.keys, CopyName(NameOf(s.clients, fd)), cmd);
        (s.(tables := tables, keys := keys), reply)
  }

  predicate EventFormed(e: Event) {
    e.Ready? && e.input.Line? ==> WellFormed(e.input.command)
  }

  /** One event: the state afterwards and what is sent to the descriptor. */
  function Step(env: Env, s: State, e: Event): (State, Reply)
    requires AllUsable(s.tables) && EventFormed(e)
  {
    match e
    case Signal => (s.(running := false), Silent)
    case Connect(fd, watched) =>
      if fd == -1 || |s.clients| >= s.max || !watched then (s, Silent)
      else (s.(clients := Joined(s.clients, fd)), Silent)
    case Ready(fd, input) =>
      if !Tracked(s.clients, fd) then (s, Silent)
      else
        match input
        case Hangup => (s.(clients := Left(s.clients, fd)), Silent)
        case Line(cmd) => Serve(env, s, fd, cmd)
  }
}
