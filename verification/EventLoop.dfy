/** The event loop: one handler over the connection manager, the key store and the table objects. */
module EventLoop {
  import opened Values
  import opened RowMap
  import opened HashMap
  import opened Connections
  import opened AuthKeys
  import opened Snapshot
  import opened Catalog
  import opened Validation
  import opened TableText
  import opened TableWriter
  import opened Database
  import opened Server
  import opened ServerRuns
  import opened ServerAnswers
  import T = Tables

  // ---- Checks and lookups ----

  /** ADD's type check over all values. */
  method ValidateValueTypes(fields: seq<Field>, values: seq<Data>) returns (code: int)
    requires |values| == |fields| - 1
    ensures code == CheckAddedValues(fields, values, 0)
  {
    for i := 0 to |values|
      invariant CheckAddedValues(fields, values, 0) == CheckAddedValues(fields, values, i)
    {
      code := CheckAdded(values[i], fields[i + 1].ty);
      if code != 0 {
        return;
      }
    }
    code := 0;
  }

  /** UP's type check, skipping ignored fields. */
  method ValidateUpdates(fields: seq<Field>, values: seq<Data>, ignore: seq<bool>) returns (code: int)
    requires |values| == |fields| - 1 && |ignore| == |values|
    ensures code == CheckUpdates(fields, values, ignore, 0)
  {
    for i := 0 to |values|
      invariant CheckUpdates(fields, values, ignore, 0) == CheckUpdates(fields, values, ignore, i)
    {
      if !ignore[i] {
        code := CheckUpdate(values[i], fields[i + 1].ty);
        if code != 0 {
          return;
        }
      }
    }
    code := 0;
  }

  method FindFieldIndex(fields: seq<Field>, name: string) returns (f: int)
    ensures f == FieldPlace(fields, name)
  {
    for i := 0 to |fields|
      invariant FieldPlaceFrom(fields, name, 0) == FieldPlaceFrom(fields, name, i)
    {
      if fields[i].name == name {
        return i;
      }
    }
    f := -1;
  }

  /** The columns to show, or nothing when a name is unknown. */
  method ChooseColumns(fields: seq<Field>, names: seq<string>) returns (columns: Option<seq<nat>>)
    ensures columns == Columns(fields, names)
  {
    hide FieldPlace;
    if names == [] {
      return Some(seq(|fields|, i requires 0 <= i < |fields| => i));
    }
    var chosen: seq<nat> := [];
    for i := 0 to |names|
      invariant |chosen| == i
      invariant forall j :: 0 <= j < i ==> FieldPlace(fields, names[j]) >= 0 && chosen[j] == FieldPlace(fields, names[j])
    {
      var f := FindFieldIndex(fields, names[i]);
      if f < 0 {
        return None;
      }
      chosen := chosen + [f];
    }
    assert !(exists i :: 0 <= i < |names| && FieldPlace(fields, names[i]) < 0);
    assert chosen == Columns(fields, names).value;
    columns := Some(chosen);
  }

  // ---- One table ----

  method AddTo(db: Db, cmd: Change) returns (reply: Reply)
    requires db.Valid() && Usable(db.Model()) && cmd.Add? && ChangeOk(db.Model(), cmd)
    modifies db, db.rowMap
    ensures db.Valid() && (db.Model(), reply) == ExecuteAdd(old(db.Model()), cmd)
  {
    hide T.Sound, T.AddRow, CheckAddedValues, FromParser, Mislabelled, Typed;
    if |db.fields| - 1 != |cmd.values| {
      return TYPE_MISMATCH;
    }
    var check := ValidateValueTypes(db.fields, cmd.values);
    if check != 0 {
      return if check == -2 then LIMIT_EXCEEDED else TYPE_MISMATCH;
    }
    AddedValuesTyped(db.fields, cmd.values, 0);
    var code := db.AddRow(if cmd.autoKey then -1 else cmd.key, cmd.values, cmd.now, cmd.growOk, cmd.lost);
    if code != 0 {
      return
        if code == -3 then Message("Maximum row capacity reached")
        else if code == -5 then Message("Row key already exists")
        else UNKNOWN_ERROR;
    }
    reply := Number(if cmd.autoKey then db.nextKey - 1 else cmd.key);
  }

  method UpdateIn(db: Db, cmd: Change) returns (reply: Reply)
    requires db.Valid() && Usable(db.Model()) && cmd.Up? && ChangeOk(db.Model(), cmd)
    modifies db, db.rowMap
    ensures db.Valid() && (db.Model(), reply) == ExecuteUp(old(db.Model()), cmd)
  {
    hide T.Sound, T.UpdateRow, CheckUpdates, FromParser, Mislabelled, Typed;
    if |db.fields| - 1 != |cmd.values| {
      return TYPE_MISMATCH;
    }
    var check := ValidateUpdates(db.fields, cmd.values, cmd.ignore);
    if check != 0 {
      return if check == -2 then LIMIT_EXCEEDED else TYPE_MISMATCH;
    }
    UpdatesTyped(db.fields, cmd.values, cmd.ignore, 0);
    var code := db.UpdateRow(cmd.key, cmd.values, cmd.ignore, cmd.now, cmd.lost);
    reply :=
      if code == 0 then Number(cmd.key)
      else if code == -3 then ROW_NOT_FOUND
      else if code == -5 then LIMIT_EXCEEDED
      else UNKNOWN_ERROR;
  }

  method IndexOn(db: Db, cmd: Change) returns (reply: Reply)
    requires db.Valid() && Usable(db.Model()) && cmd.NewIndex?
    modifies db`indexes
    ensures db.Valid() && (db.Model(), reply) == ExecuteNewIndex(old(db.Model()), cmd)
  {
    hide T.Sound, T.CreateIndex, FieldPlace;
    var f := FindFieldIndex(db.fields, cmd.field);
    if f < 0 {
      return INVALID_FIELD;
    }
    if db.fields[f].ty.Array? {
      return TYPE_MISMATCH;
    }
    var code := db.CreateIndex(f, cmd.allocOk);
    reply :=
      if code == 0 then Number(f)
      else if code == -2 then INDEX_EXISTS
      else if code == -3 then OUT_OF_MEMORY
      else UNKNOWN_ERROR;
  }

  /** ADD, UP, DEL or CREATE_INDEX on a table object. */
  method ChangeOn(db: Db, cmd: Change) returns (reply: Reply)
    requires db.Valid() && Usable(db.Model()) && ChangeOk(db.Model(), cmd) && WellFormedChange(cmd)
    modifies db, db.rowMap
    ensures db.Valid() && (db.Model(), reply) == ExecuteOn(old(db.Model()), cmd)
  {
    hide T.Sound, ExecuteAdd, ExecuteUp, ExecuteNewIndex, T.DeleteRow;
    match cmd {
      case Add(_, _, _, _, _, _) => reply := AddTo(db, cmd);
      case Up(_, _, _, _, _) => reply := UpdateIn(db, cmd);
      case Del(key, lost) =>
        var code := db.DeleteRow(key, lost);
        reply := if code == 0 then Number(key) else ROW_NOT_FOUND;
      case NewIndex(_, _) => reply := IndexOn(db, cmd);
    }
  }

  /** GET, GET_ALL, SEARCH or COUNT on a table object. */
  method AnswerFrom(db: Db, query: Query, g: int -> string) returns (reply: Reply)
    requires db.Valid() && Usable(db.Model())
    ensures reply == Answer(db.Model(), query, g)
  {
    hide FormatRows, PickRows, PickFields, Columns, T.Search, FieldPlace;
    ghost var t := db.Model();
    match query {
      case Count => return Number(db.rowsCount);
      case Get(key, names) =>
        var columns := ChooseColumns(db.fields, names);
        if columns.None? {
          return INVALID_FIELD;
        }
        var found := db.rowMap.Find(key);
        if found.None? {
          return ROW_NOT_FOUND;
        }
        StoredRowShaped(t, key);
        var text := FormatTable(db.fields, columns.value, [found.value], g);
        return Text(text);
      case GetAll(names) =>
        var columns := ChooseColumns(db.fields, names);
        if columns.None? {
          return INVALID_FIELD;
        }
        var rows := db.CollectRows();
        assert rows == RowList(T.Order(t));
        StoredShaped(t);
        var text := FormatTable(db.fields, columns.value, rows, g);
        return Text(text);
      case Find(field, value, names) =>
        var f := FindFieldIndex(db.fields, field);
        if f < 0 {
          return INVALID_FIELD;
        }
        var columns := ChooseColumns(db.fields, names);
        if columns.None? {
          return INVALID_FIELD;
        }
        var rows := db.Search(f, value);
        SearchShaped(t, f, value);
        var text := FormatTable(db.fields, columns.value, rows, g);
        return Text(text);
    }
  }

  // ---- The list of tables ----

  ghost function ModelsOf(dbs: seq<Db>): (ts: seq<T.Table>)
    reads dbs, set i | 0 <= i < |dbs| :: dbs[i].rowMap
    ensures |ts| == |dbs| && forall i :: 0 <= i < |dbs| ==> ts[i] == dbs[i].Model()
  {
    if dbs == [] then [] else [dbs[0].Model()] + ModelsOf(dbs[1..])
  }

  ghost predicate AllValid(dbs: seq<Db>)
    reads dbs, set i | 0 <= i < |dbs| :: dbs[i].rowMap
  {
    forall i :: 0 <= i < |dbs| ==> dbs[i].Valid()
  }

  /** No two tables share an object. */
  ghost predicate Apart(dbs: seq<Db>) {
    forall i, j :: 0 <= i < j < |dbs| ==> dbs[i] != dbs[j] && dbs[i].rowMap != dbs[j].rowMap
  }

  /** The list walk of find_db and remove_db. */
  method WalkTables(dbs: seq<Db>, name: string) returns (k: nat)
    ensures k == TablePlace(ModelsOf(dbs), name)
  {
    k := 0;
    while k < |dbs|
      invariant k <= |dbs| && forall i :: 0 <= i < k ==> dbs[i].name != name
    {
      if dbs[k].name == name {
        return;
      }
      k := k + 1;
    }
  }

  lemma {:induction false} ValidUsable(dbs: seq<Db>)
    requires AllValid(dbs)
    ensures AllUsable(ModelsOf(dbs))
  {
    forall i | 0 <= i < |dbs|
      ensures Usable(dbs[i].Model())
    {
      SoundIsUsable(dbs[i].Model());
    }
  }

  lemma {:induction false} WithHead(db: Db, dbs: seq<Db>)
    requires db.Valid() && AllValid(dbs) && Apart(dbs)
    requires forall i :: 0 <= i < |dbs| ==> dbs[i] != db && dbs[i].rowMap != db.rowMap
    ensures AllValid([db] + dbs) && Apart([db] + dbs) && ModelsOf([db] + dbs) == [db.Model()] + ModelsOf(dbs)
  {
    hide T.Sound, ModelsOf;
    assert forall i :: 0 < i < |[db] + dbs| ==> ([db] + dbs)[i] == dbs[i - 1];
  }

  /** Taking one table out of the list disturbs no other. */
  lemma {:induction false} WithoutOne(dbs: seq<Db>, k: nat)
    requires k < |dbs| && AllValid(dbs) && Apart(dbs)
    ensures var rest := dbs[..k] + dbs[k + 1..];
            && AllValid(rest) && Apart(rest)
            && ModelsOf(rest) == ModelsOf(dbs)[..k] + ModelsOf(dbs)[k + 1..]
  {
    hide T.Sound, ModelsOf;
    var rest := dbs[..k] + dbs[k + 1..];
    assert forall i :: 0 <= i < |rest| ==> rest[i] == dbs[if i < k then i else i + 1];
  }

  predicate OnTables(cmd: Command) {
    cmd.Read? || cmd.Write? || cmd.NewTable? || cmd.DropTable?
  }

  class Loop {
    const cm: ConnectionManager
    const store: AuthStore
    var dbs: seq<Db>
    var running: bool

    ghost predicate Valid()
      reads this, cm, cm.clients, cm.levels, cm.names, store, store.keys, dbs, set i | 0 <= i < |dbs| :: dbs[i].rowMap
    {
      cm.Valid() && store.Valid() && AllValid(dbs) && Apart(dbs) && AllUsable(ModelsOf(dbs))
    }

    /** The state the objects hold. */
    ghost function Holds(): State
      requires Valid()
      reads this, cm, cm.clients, cm.levels, cm.names, store, store.keys, dbs, set i | 0 <= i < |dbs| :: dbs[i].rowMap
    {
      State(cm.Contents(), cm.max, store.Contents(), ModelsOf(dbs), running)
    }

    constructor (maxClients: nat, loaded: seq<Db>, keyStore: AuthStore)
      requires AllValid(loaded) && Apart(loaded) && keyStore.Valid()
      ensures Valid() && Holds() == State([], maxClients, keyStore.Contents(), ModelsOf(loaded), true)
      ensures store == keyStore && fresh(cm) && fresh(cm.clients) && fresh(cm.levels) && fresh(cm.names)
    {
      hide AllUsable, AllValid, Apart, ModelsOf;
      cm := new ConnectionManager(maxClients);
      store := keyStore;
      dbs := loaded;
      running := true;
      ValidUsable(loaded);
    }

    /** Change one table in place; the others keep their objects and contents. */
    method ChangeAt(k: nat, change: Change) returns (reply: Reply)
      requires k < |dbs| && AllValid(dbs) && Apart(dbs) && WellFormedChange(change)
      requires Usable(dbs[k].Model()) && ChangeOk(dbs[k].Model(), change)
      modifies dbs[k], dbs[k].rowMap
      ensures AllValid(dbs) && dbs[k].Model().name == old(dbs[k].Model().name)
      ensures (dbs[k].Model(), reply) == ExecuteOn(old(dbs[k].Model()), change)
      ensures forall i :: 0 <= i < |dbs| && i != k ==> dbs[i].Model() == old(dbs[i].Model())
    {
      hide ExecuteOn, Usable, T.Sound, ChangeOk;
      reply := ChangeOn(dbs[k], change);
    }

    /** Find the table and change it. */
    method ChangeTable(name: string, change: Change) returns (reply: Reply)
      requires AllValid(dbs) && Apart(dbs) && WellFormedChange(change)
      requires AllUsable(ModelsOf(dbs)) && CommandOk(ModelsOf(dbs), Write(name, change))
      modifies dbs, set i | 0 <= i < |dbs| :: dbs[i].rowMap
      ensures AllValid(dbs) && (ModelsOf(dbs), reply) == ExecuteWrite(old(ModelsOf(dbs)), name, change)
    {
      hide ExecuteOn, Usable, T.Sound, ChangeOk, FindDb, ModelsOf, Apart;
      ghost var before := ModelsOf(dbs);
      FindDbPlace(before, name);
      var k := WalkTables(dbs, name);
      if k == |dbs| {
        return DB_NOT_FOUND;
      }
      reply := ChangeAt(k, change);
      assert ModelsOf(dbs) == before[k := dbs[k].Model()];
    }

    method ReadTable(name: string, query: Query, g: int -> string) returns (reply: Reply)
      requires AllValid(dbs) && AllUsable(ModelsOf(dbs))
      ensures reply == ExecuteRead(ModelsOf(dbs), name, query, g)
    {
      hide Answer, Usable, T.Sound, FindDb, ModelsOf;
      FindDbPlace(ModelsOf(dbs), name);
      var k := WalkTables(dbs, name);
      if k == |dbs| {
        return DB_NOT_FOUND;
      }
      reply := AnswerFrom(dbs[k], query, g);
    }

    /** CREATE: a new object at the head of the list. */
    method CreateTable(env: Env, name: string, fields: seq<Field>) returns (reply: Reply)
      requires AllValid(dbs) && Apart(dbs)
      modifies this`dbs
      ensures AllValid(dbs) && Apart(dbs)
      ensures (ModelsOf(dbs), reply) == ExecuteNewTable(env, old(ModelsOf(dbs)), name, fields)
    {
      hide T.Sound, FindDb, ModelsOf, T.Create, AllValid, Apart;
      if fields == [] {
        return INVALID_DATA;
      }
      if |fields| > MAX_FIELDS_PER_DB {
        return LIMIT_EXCEEDED;
      }
      ghost var before := ModelsOf(dbs);
      FindDbPlace(before, CopyName(name));
      CreateNamed(env.hash, CopyName(name), fields);
      var k := WalkTables(dbs, CopyName(name));
      if k < |dbs| {
        return DB_EXISTS;
      }
      if |dbs| >= MAX_DB_COUNT {
        return LIMIT_EXCEEDED;
      }
      var db := new Db(env.hash, CopyName(name), fields);
      assert AllValid(dbs) && ModelsOf(dbs) == before;
      WithHead(db, dbs);
      dbs := [db] + dbs;
      reply := Number(|fields|);
    }

    /** DEL_TABLE: the object leaves the list. */
    method RemoveTable(name: string) returns (reply: Reply)
      requires AllValid(dbs) && Apart(dbs)
      modifies this`dbs
      ensures AllValid(dbs) && Apart(dbs)
      ensures ModelsOf(dbs) == RemoveDb(old(ModelsOf(dbs)), name).0
      ensures reply == if RemoveDb(old(ModelsOf(dbs)), name).1 == 0 then Number(1) else DB_NOT_FOUND
    {
      hide T.Sound, ModelsOf, AllValid, Apart;
      var k := WalkTables(dbs, name);
      if k == |dbs| {
        return DB_NOT_FOUND;
      }
      WithoutOne(dbs, k);
      dbs := dbs[..k] + dbs[k + 1..];
      reply := Number(1);
    }

    method ListKeyLines() returns (text: string)
      requires store.Valid()
      ensures text == KeyTable(store.Contents())
    {
      ghost var keys := store.Contents();
      var head := "| name | role |\n" + "| - | - |\n";
      text := head;
      assert keys[..0] == [];
      for i := 0 to store.count
        invariant text == head + KeyLines(keys[..i])
      {
        var k := store.keys[i];
        text := text + ("| " + k.name + " | " + (if k.role == ROLE_ADMIN then "admin" else "readonly") + " |\n");
        KeyLinesGrow(keys, i);
        ConcatAssociates(head, KeyLines(keys[..i]), KeyLine(k));
      }
      assert keys[..store.count] == keys;
    }

    /** The commands that leave the tables alone: WHOAMI and the key commands. */
    method ExecuteOnKeys(env: Env, who: string, cmd: Command) returns (reply: Reply)
      requires store.Valid() && AllUsable(ModelsOf(dbs)) && WellFormed(cmd) && !OnTables(cmd)
      modifies store`count, store.keys
      ensures store.Valid()
      ensures (ModelsOf(dbs), store.Contents(), reply) == Execute(env, ModelsOf(dbs), old(store.Contents()), who, cmd)
    {
      hide AddKey, DelKey, AllUsable, ModelsOf, KeyTable;
      match cmd {
        case Malformed(error) => reply := Message(error);
        case Auth(_) => reply := UNKNOWN_ERROR;
        case Whoami => reply := Text(CopyName(who));
        case NewKey(name, token, hash, role) =>
          var code := store.AuthAddKey(name, hash, role);
          reply := if code == 0 then Text(token) else Message("Failed to add key: store full or name already exists");
        case DropKey(name) =>
          var code := store.AuthDelKey(name);
          reply := if code == 0 then Number(1) else Message("Key not found");
        case ListKeys =>
          var text := ListKeyLines();
          reply := Text(text);
      }
    }

    /** The table commands. */
    method ExecuteOnTables(env: Env, who: string, cmd: Command) returns (reply: Reply)
      requires AllValid(dbs) && Apart(dbs) && AllUsable(ModelsOf(dbs)) && WellFormed(cmd) && CommandOk(ModelsOf(dbs), cmd)
      requires OnTables(cmd)
      modifies this`dbs, dbs, set i | 0 <= i < |dbs| :: dbs[i].rowMap
      ensures AllValid(dbs) && Apart(dbs)
      ensures forall keys :: (ModelsOf(dbs), keys, reply) == Execute(env, old(ModelsOf(dbs)), keys, who, cmd)
    {
      hide ExecuteNewTable, ExecuteWrite, ExecuteRead, AllUsable, AllValid, Apart, ModelsOf, ChangeOk, FindDb, RemoveDb;
      match cmd {
        case Read(name, query) => reply := ReadTable(name, query, env.g);
        case Write(name, change) => reply := ChangeTable(name, change);
        case NewTable(name, fields) => reply := CreateTable(env, name, fields);
        case DropTable(name) => reply := RemoveTable(name);
      }
    }

    /** Give an authorised command to its handler. */
    method ExecuteCommand(env: Env, who: string, cmd: Command) returns (reply: Reply)
      requires Valid() && WellFormed(cmd) && CommandOk(ModelsOf(dbs), cmd)
      modifies this`dbs, store`count, store.keys, dbs, set i | 0 <= i < |dbs| :: dbs[i].rowMap
      ensures Valid()
      ensures (ModelsOf(dbs), store.Contents(), reply)
           == Execute(env, old(ModelsOf(dbs)), old(store.Contents()), who, cmd)
    {
      hide Execute, AllUsable, AllValid, Apart, ModelsOf, CommandOk, WellFormed, OnTables;
      if OnTables(cmd) {
        reply := ExecuteOnTables(env, who, cmd);
      } else {
        reply := ExecuteOnKeys(env, who, cmd);
      }
      ValidUsable(dbs);
    }

    /** AUTH: level and name of the first matching key, written to the client's entry. */
    method Authenticate(env: Env, fd: int, token: string) returns (reply: Reply)
      requires cm.Valid() && store.Valid()
      modifies cm.levels, cm.names
      ensures cm.Valid()
      ensures var (level, name) := VerifyToken(store.Contents(), token, env.verify);
              && reply == (if level == NoAuth then Message("ERR Invalid token") else Number(LevelNumber(level)))
              && cm.Contents() == (if level == NoAuth then old(cm.Contents()) else Granted(old(cm.Contents()), fd, level, name))
    {
      hide VerifyToken, WithLevel, WithName;
      var level, name := store.AuthVerify(token, env.verify);
      if level == NoAuth {
        return Message("ERR Invalid token");
      }
      cm.SetClientAuth(fd, level);
      cm.SetClientName(fd, name);
      reply := Number(LevelNumber(level));
    }

    /** A permitted command: the clients stay as they are. */
    method ExecuteFor(env: Env, fd: int, cmd: Command) returns (reply: Reply)
      requires Valid() && WellFormed(cmd) && CommandOk(ModelsOf(dbs), cmd)
      modifies this`dbs, store`count, store.keys, dbs, set i | 0 <= i < |dbs| :: dbs[i].rowMap
      ensures Valid()
      ensures var s := old(Holds());
              var r := Execute(env, s.tables, s.keys, CopyName(NameOf(s.clients, fd)), cmd);
              Holds() == s.(tables := r.0, keys := r.1) && reply == r.2
    {
      hide Execute, AllUsable, NameOf, AllValid, Apart, ModelsOf, CommandOk, WellFormed;
      var who := cm.GetClientName(fd);
      reply := ExecuteCommand(env, who, cmd);
      assert cm.Contents() == old(cm.Contents());
    }

    /** A command other than AUTH, at the level of its client. */
    method Authorise(env: Env, fd: int, cmd: Command) returns (reply: Reply)
      requires Valid() && WellFormed(cmd) && !cmd.Malformed? && !cmd.Auth?
      requires LevelOf(cm.Contents(), fd) == Admin ==> CommandOk(ModelsOf(dbs), cmd)
      modifies this`dbs, store`count, store.keys, dbs, set i | 0 <= i < |dbs| :: dbs[i].rowMap
      ensures Valid() && (Holds(), reply) == Serve(env, old(Holds()), fd, cmd)
    {
      hide Execute, AllUsable, LevelOf, NameOf, AllValid, Apart, ModelsOf, CommandOk, Serve, ReadsOnly, WellFormed;
      ghost var before := Holds();
      ServeForm(env, before, fd, cmd);
      var level := cm.GetClientAuth(fd);
      if level == NoAuth {
        reply := Message("ERR Authentication required");
      } else if level == ReadOnly && !ReadsOnly(cmd) {
        reply := Message("ERR Permission denied");
      } else {
        if level == ReadOnly {
          ReadsAreFine(ModelsOf(dbs), cmd);
        }
        reply := ExecuteFor(env, fd, cmd);
      }
    }

    /** A line from a tracked client. */
    method ServeLine(env: Env, fd: int, cmd: Command) returns (reply: Reply)
      requires Valid() && WellFormed(cmd)
      requires LevelOf(cm.Contents(), fd) == Admin ==> CommandOk(ModelsOf(dbs), cmd)
      modifies this`dbs, cm.levels, cm.names, store`count, store.keys, dbs, set i | 0 <= i < |dbs| :: dbs[i].rowMap
      ensures Valid() && (Holds(), reply) == Serve(env, old(Holds()), fd, cmd)
    {
      hide Execute, AllUsable, LevelOf, NameOf, VerifyToken, Granted, AllValid, Apart, ModelsOf, CommandOk, WellFormed;
      if cmd.Malformed? {
        reply := Message(cmd.error);
      } else if cmd.Auth? {
        reply := Authenticate(env, fd, cmd.token);
      } else {
        reply := Authorise(env, fd, cmd);
      }
    }

    /** One event of the loop. */
    method Handle(env: Env, e: Event) returns (reply: Reply)
      requires Valid() && EventFormed(e) && EventOk(Holds(), e)
      modifies this`dbs, this`running, cm`count, cm.clients, cm.levels, cm.names, store`count, store.keys,
        dbs, set i | 0 <= i < |dbs| :: dbs[i].rowMap
      ensures Valid() && (Holds(), reply) == Step(env, old(Holds()), e)
    {
      hide Serve, AllUsable, Joined, Left, AllValid, Apart, ModelsOf, CommandOk;
      reply := Silent;
      match e {
        case Signal => running := false;
        case Connect(fd, watched) =>
          if fd != -1 {
            var code := cm.AddClient(fd, watched);
          }
        case Ready(fd, input) =>
          var known := cm.IsClient(fd);
          if known {
            match input {
              case Hangup => var code := cm.RemoveClient(fd);
              case Line(cmd) => reply := ServeLine(env, fd, cmd);
            }
          }
      }
    }
  }

  /** The three outcomes of a command other than AUTH. */
  lemma {:induction false} ServeForm(env: Env, s: State, fd: int, cmd: Command)
    requires AllUsable(s.tables) && WellFormed(cmd) && !cmd.Malformed? && !cmd.Auth?
    ensures var level := LevelOf(s.clients, fd);
            var (tables, keys, reply) := Execute(env, s.tables, s.keys, CopyName(NameOf(s.clients, fd)), cmd);
            Serve(env, s, fd, cmd)
              == if level == NoAuth then (s, Message("ERR Authentication required"))
                 else if level == ReadOnly && !ReadsOnly(cmd) then (s, Message("ERR Permission denied"))
                 else (s.(tables := tables, keys := keys), reply)
  {
    hide Execute, LevelOf, NameOf, AllUsable;
  }

  lemma {:induction false} ReadsAreFine(tables: seq<T.Table>, cmd: Command)
    requires ReadsOnly(cmd)
    ensures CommandOk(tables, cmd)
  {
  }

  lemma {:induction false} CreateNamed(hash: int -> nat, name: string, fields: seq<Field>)
    ensures T.Create(hash, name, fields).name == name
  {
  }

  lemma {:induction false} KeyLinesGrow(keys: seq<AuthKey>, i: nat)
    requires i < |keys|
    ensures KeyLines(keys[..i + 1]) == KeyLines(keys[..i]) + KeyLine(keys[i])
  {
    hide KeyLine;
    if i > 0 {
      KeyLinesGrow(keys[1..], i - 1);
      assert keys[..i + 1][1..] == keys[1..][..i] && keys[..i][1..] == keys[1..][..i - 1];
    } else {
      assert keys[..1][1..] == [];
    }
  }
}
