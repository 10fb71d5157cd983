/** What each event does to the server: one statement per command, over a whole step. */
module ServerEffects {
  import opened Values
  import opened RowMap
  import opened Connections
  import opened AuthKeys
  import opened Snapshot
  import opened Catalog
  import opened Validation
  import opened TableMeaning
  import opened Server
  import opened Sessions
  import opened ServerRuns
  import opened ServerAnswers
  import T = Tables
  import TableRuns
  import Searches

  /** A line from a client. */
  function Sent(fd: int, cmd: Command): Event {
    Ready(fd, Line(cmd))
  }

  /** A line from a tracked client of this level. */
  ghost predicate From(s: State, fd: int, level: Level) {
    ServerOk(s) && Tracked(s.clients, fd) && LevelOf(s.clients, fd) == level
  }

  // ---- Who may do what ----

  /**
   * Without AUTH every command is refused. A read-only client is refused everything but GET,
   * GET_ALL, SEARCH, COUNT and WHOAMI. Everything else is executed, for an admin always.
   */
  lemma {:induction false} Permissions(env: Env, s: State, fd: int, cmd: Command)
    requires ServerOk(s) && Tracked(s.clients, fd) && WellFormed(cmd) && !cmd.Malformed? && !cmd.Auth?
    ensures var level := LevelOf(s.clients, fd);
            var (s', reply) := Step(env, s, Sent(fd, cmd));
            var (tables, keys, answer) := Execute(env, s.tables, s.keys, CopyName(NameOf(s.clients, fd)), cmd);
            && (level == NoAuth ==> s' == s && reply == Message("ERR Authentication required"))
            && (level == ReadOnly && !cmd.Read? && !cmd.Whoami? ==> s' == s && reply == Message("ERR Permission denied"))
            && (level == Admin || (level == ReadOnly && (cmd.Read? || cmd.Whoami?)) ==>
                  s' == s.(tables := tables, keys := keys) && reply == answer)
  {
    hide Execute, LevelOf, NameOf, AllSound, KeysOk;
  }

  /** A line that does not parse is answered with its error and changes nothing. */
  lemma {:induction false} MalformedStep(env: Env, s: State, fd: int, error: string)
    requires ServerOk(s) && Tracked(s.clients, fd)
    ensures Step(env, s, Sent(fd, Malformed(error))) == (s, Message(error))
  {
    hide Execute, LevelOf, NameOf, AllSound, KeysOk;
  }

  /** Key number i is the first that matches the token. */
  ghost predicate Decides(keys: seq<AuthKey>, token: string, verify: Verify, i: nat) {
    i < |keys| && verify(keys[i].hash, token) && forall j :: 0 <= j < i ==> !verify(keys[j].hash, token)
  }

  /**
   * AUTH: the first stored key that matches the token decides. An admin key earns level 2, any
   * other level 1, and the client takes the key's name; without a match nothing changes.
   */
  lemma {:induction false} AuthStep(env: Env, s: State, fd: int, token: string)
    requires ServerOk(s) && Tracked(s.clients, fd)
    ensures var (s', reply) := Step(env, s, Sent(fd, Auth(token)));
            && s' == s.(clients := s'.clients)
            && ((forall i :: 0 <= i < |s.keys| ==> !env.verify(s.keys[i].hash, token)) ==>
                  s' == s && reply == Message("ERR Invalid token"))
            && (forall i: nat :: Decides(s.keys, token, env.verify, i) ==>
                  && reply == Number(if s.keys[i].role == 1 then 2 else 1)
                  && SessionMap(s'.clients) == SessionMap(s.clients)[fd := (if s.keys[i].role == 1 then Admin else ReadOnly, CopyName(s.keys[i].name))])
  {
    hide Execute, LevelOf, NameOf, AllSound, KeysOk, Granted, SessionMap, DistinctFds;
    var (level, name) := VerifyToken(s.keys, token, env.verify);
    GrantDistinct(s);
    forall i: nat | Decides(s.keys, token, env.verify, i)
      ensures FirstMatch(s.keys, token, env.verify) == Some(s.keys[i])
    {
      FirstMatchAt(s.keys, token, env.verify, i);
    }
    if level != NoAuth {
      GrantRefines(s.clients, fd, level, name);
    }
  }

  lemma {:induction false} GrantDistinct(s: State)
    requires ServerOk(s)
    ensures DistinctFds(s.clients)
  {
  }

  lemma {:induction false} FirstMatchAt(keys: seq<AuthKey>, token: string, verify: Verify, i: nat)
    requires Decides(keys, token, verify, i)
    ensures FirstMatch(keys, token, verify) == Some(keys[i])
  {
    if i > 0 {
      FirstMatchAt(keys[1..], token, verify, i - 1);
    }
  }

  // ---- Connections ----

  /** A new connection is tracked without level and name, while there is room and it can be watched. */
  lemma {:induction false} ConnectStep(env: Env, s: State, fd: int, watched: bool)
    requires ServerOk(s) && !Tracked(s.clients, fd)
    ensures var (s', reply) := Step(env, s, Connect(fd, watched));
            && reply == Silent && s' == s.(clients := s'.clients)
            && SessionMap(s'.clients)
               == if fd != -1 && watched && |SessionMap(s.clients).Keys| < s.max then SessionMap(s.clients)[fd := (NoAuth, "")]
                  else SessionMap(s.clients)
  {
    hide AllSound, KeysOk, Joined, Tracked, SessionMap;
    SessionCount(s.clients);
    JoinRefines(s.clients, fd);
  }

  /** A closed connection leaves the sessions; a descriptor that is not tracked is skipped. */
  lemma {:induction false} HangupStep(env: Env, s: State, fd: int)
    requires ServerOk(s)
    ensures var (s', reply) := Step(env, s, Ready(fd, Hangup));
            && reply == Silent && s' == s.(clients := s'.clients)
            && SessionMap(s'.clients) == SessionMap(s.clients) - {fd}
  {
    hide AllSound, KeysOk, Left, SessionMap;
    LeaveRefines(s.clients, fd);
    if !Tracked(s.clients, fd) {
      LeaveNone(s.clients, fd);
    }
  }

  lemma {:induction false} SkippedStep(env: Env, s: State, fd: int, cmd: Command)
    requires ServerOk(s) && !Tracked(s.clients, fd) && WellFormed(cmd)
    ensures Step(env, s, Sent(fd, cmd)) == (s, Silent)
    ensures Step(env, s, Signal) == (s.(running := false), Silent)
  {
    hide AllSound, KeysOk;
  }

  // ---- Commands that change one table ----

  /** Nothing but the table of this name differs. */
  ghost predicate OnlyTable(s: State, s': State, name: string) {
    && s' == s.(tables := s'.tables) && |s'.tables| == |s.tables|
    && forall other :: other != name ==> FindDb(s'.tables, other) == FindDb(s.tables, other)
  }

  /** A change reaches the table it names: the table found afterwards and the reply are the handler's. */
  lemma {:induction false} WriteStep(env: Env, s: State, fd: int, name: string, change: Change)
    requires From(s, fd, Admin) && WellFormedChange(change) && CommandOk(s.tables, Write(name, change))
    ensures var (s', reply) := Step(env, s, Sent(fd, Write(name, change)));
            var found := FindDb(s.tables, name);
            && (found.None? ==> s' == s && reply == DB_NOT_FOUND)
            && (found.Some? ==>
                  && Usable(found.value) && T.Sound(found.value) && found.value.name == name
                  && var (t, answer) := ExecuteOn(found.value, change);
                     && OnlyTable(s, s', name) && FindDb(s'.tables, name) == Some(t) && reply == answer
                     && (t == found.value ==> s' == s))
  {
    hide ExecuteOn, FindDb, Changed, T.Sound, Usable, ChangeOk, LevelOf, NameOf, KeysOk;
    var found := FindDb(s.tables, name);
    if found.Some? {
      FoundSound(s.tables, name);
      FoundUsable(s.tables, name);
      ChangeKeeps(found.value, change);
      var t := ExecuteOn(found.value, change).0;
      ChangedEffect(s.tables, t, name);
      ChangedElsewhere(s.tables, t);
      SameTable(s.tables, found.value);
    }
  }

  lemma {:induction false} ChangedElsewhere(tables: seq<T.Table>, t: T.Table)
    requires DistinctNames(tables)
    ensures forall other :: other != t.name ==> FindDb(Changed(tables, t), other) == FindDb(tables, other)
  {
    forall other | other != t.name
      ensures FindDb(Changed(tables, t), other) == FindDb(tables, other)
    {
      ChangedEffect(tables, t, other);
    }
  }

  lemma {:induction false} SameTable(tables: seq<T.Table>, t: T.Table)
    ensures FindDb(tables, t.name) == Some(t) ==> Changed(tables, t) == tables
  {
    FindDbPlace(tables, t.name);
  }

  // ---- DEL ----

  /** DEL removes the row under the key and answers the key, or answers that there is none. */
  lemma {:induction false} DelStep(env: Env, s: State, fd: int, name: string, key: int, lost: set<nat>)
    requires From(s, fd, Admin) && FindDb(s.tables, name).Some?
    ensures var t := FindDb(s.tables, name).value;
            var (s', reply) := Step(env, s, Sent(fd, Write(name, Del(key, lost))));
            && T.Sound(t) && OnlyTable(s, s', name)
            && (key !in t.rows.Contents() ==> s' == s && reply == Message("Row not found"))
            && (key in t.rows.Contents() ==>
                  && reply == Number(key) && FindDb(s'.tables, name).Some?
                  && var t' := FindDb(s'.tables, name).value;
                     && T.Sound(t') && t'.rows.Contents() == t.rows.Contents() - {key}
                     && t'.rowsCount == t.rowsCount - 1 && t'.nextKey == t.nextKey && t'.fields == t.fields
                     && IndexesKept(t, t', lost))
  {
    hide FindDb, T.Sound, ServerOk, T.DeleteRow, OnlyTable, LevelOf;
    WriteStep(env, s, fd, name, Del(key, lost));
    var t := FindDb(s.tables, name).value;
    DeleteMeaning(t, key, lost);
  }

  // ---- ADD ----

  /** What ADD and UP accept for a column, among values that are not mislabelled: what fits it. */
  lemma {:induction false} CheckCodes(d: Data, ty: FieldType)
    requires FromParser(d) && !Mislabelled(d, ty)
    ensures CheckAdded(d, ty) == if Typed(d, ty) then 0 else -1
    ensures CheckUpdate(d, ty) == if Typed(d, ty) then 0 else -1
  {
    hide Typed, Mislabelled;
    AcceptedIff(d, ty);
    LengthFits(d);
  }

  ghost predicate AllTyped(fields: seq<Field>, values: seq<Data>)
    requires |values| == |fields| - 1
  {
    forall j :: 0 <= j < |values| ==> Typed(values[j], fields[j + 1].ty)
  }

  lemma {:induction false} CheckedValues(fields: seq<Field>, values: seq<Data>, i: nat)
    requires |values| == |fields| - 1 && i <= |values|
    requires forall j :: 0 <= j < |values| ==> FromParser(values[j]) && !Mislabelled(values[j], fields[j + 1].ty)
    ensures CheckAddedValues(fields, values, i)
         == if forall j :: i <= j < |values| ==> Typed(values[j], fields[j + 1].ty) then 0 else -1
    decreases |values| - i
  {
    hide FromParser, Mislabelled, Typed, CheckAdded;
    if i < |values| {
      CheckCodes(values[i], fields[i + 1].ty);
      CheckedValues(fields, values, i + 1);
    }
  }

  /**
   * ADD: values of the wrong number or type, a full table and a taken key are refused, each
   * with its message; otherwise the row is stored under its key with both times and counted.
   */
  lemma {:induction false} AddStep(env: Env, s: State, fd: int, name: string, cmd: Change)
    requires From(s, fd, Admin) && cmd.Add? && FindDb(s.tables, name).Some? && CommandOk(s.tables, Write(name, cmd))
    ensures var t := FindDb(s.tables, name).value;
            var (s', reply) := Step(env, s, Sent(fd, Write(name, cmd)));
            var key := if cmd.autoKey || cmd.key < 0 then t.nextKey else cmd.key;
            var counter := if key >= t.nextKey then key + 1 else t.nextKey;
            && T.Sound(t) && OnlyTable(s, s', name)
            && (if |cmd.values| != |t.fields| - 1 || !AllTyped(t.fields, cmd.values) then
                  s' == s && reply == Message("Data type mismatch")
                else if t.rowsCount >= 1048576 then s' == s && reply == Message("Maximum row capacity reached")
                else if key in t.rows.Contents() then
                  reply == Message("Row key already exists") && FindDb(s'.tables, name) == Some(t.(nextKey := counter))
                else
                  && reply == Number(if cmd.autoKey then key else cmd.key) && FindDb(s'.tables, name).Some?
                  && var t' := FindDb(s'.tables, name).value;
                     && T.Sound(t') && t'.fields == t.fields && t'.nextKey == counter && t'.rowsCount == t.rowsCount + 1
                     && t'.rows.Contents() == t.rows.Contents()[key := Row([IntV(key)] + cmd.values, cmd.now, cmd.now)]
                     && IndexesKept(t, t', cmd.lost))
  {
    hide FindDb, T.Sound, ServerOk, T.AddRow, OnlyTable, LevelOf, FromParser, Mislabelled, Typed, CheckAddedValues;
    WriteStep(env, s, fd, name, cmd);
    var t := FindDb(s.tables, name).value;
    if |cmd.values| == |t.fields| - 1 {
      CheckedValues(t.fields, cmd.values, 0);
      if AllTyped(t.fields, cmd.values) {
        AddMeaning(t, if cmd.autoKey then -1 else cmd.key, cmd.values, cmd.now, cmd.growOk, cmd.lost);
      }
    }
  }

  // ---- UP ----

  ghost predicate UsedTyped(fields: seq<Field>, values: seq<Data>, ignore: seq<bool>)
    requires |values| == |fields| - 1 == |ignore|
  {
    forall j :: 0 <= j < |values| && !ignore[j] ==> Typed(values[j], fields[j + 1].ty)
  }

  lemma {:induction false} CheckedUpdates(fields: seq<Field>, values: seq<Data>, ignore: seq<bool>, i: nat)
    requires |values| == |fields| - 1 && |ignore| == |values| && i <= |values|
    requires forall j :: 0 <= j < |values| && !ignore[j] ==> FromParser(values[j]) && !Mislabelled(values[j], fields[j + 1].ty)
    ensures CheckUpdates(fields, values, ignore, i)
         == if forall j :: i <= j < |values| && !ignore[j] ==> Typed(values[j], fields[j + 1].ty) then 0 else -1
    decreases |values| - i
  {
    hide FromParser, Mislabelled, Typed, CheckUpdate;
    if i < |values| {
      if !ignore[i] {
        CheckCodes(values[i], fields[i + 1].ty);
      }
      CheckedUpdates(fields, values, ignore, i + 1);
    }
  }

  /**
   * UP: values of the wrong number or type and a missing row are refused. Otherwise the fields
   * before the first append to a full array are updated: all of them, with the row stamped and
   * the key as answer, when there is no such append.
   */
  lemma {:induction false} UpStep(env: Env, s: State, fd: int, name: string, cmd: Change) returns (stop: nat)
    requires From(s, fd, Admin) && cmd.Up? && FindDb(s.tables, name).Some? && WellFormedChange(cmd)
    requires CommandOk(s.tables, Write(name, cmd))
    ensures var t := FindDb(s.tables, name).value;
            var (s', reply) := Step(env, s, Sent(fd, Write(name, cmd)));
            && T.Sound(t) && OnlyTable(s, s', name)
            && (if |cmd.values| != |t.fields| - 1 || !UsedTyped(t.fields, cmd.values, cmd.ignore) then
                  s' == s && reply == Message("Data type mismatch")
                else if cmd.key !in t.rows.Contents() then s' == s && reply == Message("Row not found")
                else
                  var row := t.rows.Contents()[cmd.key];
                  && |row.values| == |t.fields| && StopsAt(t.fields, row.values, cmd.values, cmd.ignore, stop)
                  && reply == (if stop < |cmd.values| then Message("Limit exceeded") else Number(cmd.key))
                  && FindDb(s'.tables, name).Some?
                  && var t' := FindDb(s'.tables, name).value;
                     && T.Sound(t') && t' == t.(rows := t'.rows, indexes := t'.indexes) && cmd.key in t'.rows.Contents()
                     && var row' := t'.rows.Contents()[cmd.key];
                        && t'.rows.Contents() == t.rows.Contents()[cmd.key := row']
                        && UpdatedUpTo(t.fields, row.values, row'.values, cmd.values, cmd.ignore, stop)
                        && row'.created == row.created
                        && row'.updated == (if stop < |cmd.values| then row.updated else cmd.now)
                        && (stop == |cmd.values| ==> IndexesKept(t, t', cmd.lost)))
  {
    hide FindDb, T.Sound, ServerOk, T.UpdateRow, OnlyTable, LevelOf, FromParser, Mislabelled, Typed, CheckUpdates, StopsAt, UpdatedUpTo,
      IndexesKept;
    WriteStep(env, s, fd, name, cmd);
    var t := FindDb(s.tables, name).value;
    stop := 0;
    if |cmd.values| == |t.fields| - 1 {
      CheckedUpdates(t.fields, cmd.values, cmd.ignore, 0);
      if UsedTyped(t.fields, cmd.values, cmd.ignore) {
        SoundValid(t);
        if cmd.key in t.rows.Contents() {
          stop := UpMeaning(t, cmd.key, cmd.values, cmd.ignore, cmd.now, cmd.lost);
        } else {
          TableRuns.UpdateRejected(t, cmd.key, cmd.values, cmd.ignore, cmd.now, cmd.lost);
        }
      }
    }
  }

  lemma {:induction false} SoundValid(t: T.Table)
    requires T.Sound(t)
    ensures t.rows.Valid()
  {
  }

  // ---- CREATE_INDEX ----

  /** CREATE_INDEX enables the index of a scalar column that has none; every refusal has its message. */
  lemma {:induction false} IndexStep(env: Env, s: State, fd: int, name: string, field: string, allocOk: bool)
    requires From(s, fd, Admin) && FindDb(s.tables, name).Some?
    ensures var t := FindDb(s.tables, name).value;
            var (s', reply) := Step(env, s, Sent(fd, Write(name, NewIndex(field, allocOk))));
            && T.Sound(t) && OnlyTable(s, s', name)
            && ((forall j :: 0 <= j < |t.fields| ==> t.fields[j].name != field) ==>
                  s' == s && reply == Message("Invalid field specified"))
            && (forall f: nat :: FirstNamed(t.fields, field, f) ==>
                  if t.fields[f].ty.Array? then s' == s && reply == Message("Data type mismatch")
                  else if t.indexes[f].Enabled? then s' == s && reply == Message("Index already exists")
                  else if !allocOk then s' == s && reply == Message("Memory allocation failed")
                  else
                    && reply == Number(f) && FindDb(s'.tables, name).Some?
                    && var t' := FindDb(s'.tables, name).value;
                       && t' == t.(indexes := t'.indexes) && |t'.indexes| == |t.indexes| && t'.indexes[f].Enabled?
                       && forall h :: 0 <= h < |t.indexes| && h != f ==> t'.indexes[h] == t.indexes[h])
  {
    hide FindDb, T.Sound, ServerOk, T.CreateIndex, OnlyTable, LevelOf, FieldPlaceFrom;
    WriteStep(env, s, fd, name, NewIndex(field, allocOk));
    var t := FindDb(s.tables, name).value;
    var place := FieldPlace(t.fields, field);
    IndexMeaning(t, place, allocOk);
    forall f: nat | FirstNamed(t.fields, field, f)
      ensures f == place
    {
      PlaceFirst(t.fields, field, f);
    }
  }

  // ---- CREATE and DEL_TABLE ----

  /** The tables of other names are found as before. */
  ghost predicate OtherTables(s: State, s': State, name: string) {
    && s' == s.(tables := s'.tables)
    && forall other :: other != name ==> FindDb(s'.tables, other) == FindDb(s.tables, other)
  }

  /** CREATE: an empty table of the given columns behind the key column, counting from 1, with no index. */
  lemma {:induction false} CreateStep(env: Env, s: State, fd: int, name: string, fields: seq<Field>)
    requires From(s, fd, Admin) && |name| <= NAME_LIMIT
    ensures var (s', reply) := Step(env, s, Sent(fd, NewTable(name, fields)));
            && OtherTables(s, s', name)
            && (if fields == [] then s' == s && reply == Message("Invalid data provided to operation")
                else if |fields| > 64 then s' == s && reply == Message("Limit exceeded")
                else if FindDb(s.tables, name).Some? then s' == s && reply == Message("Database already exists")
                else if |s.tables| >= 64 then s' == s && reply == Message("Limit exceeded")
                else
                  && reply == Number(|fields|) && |s'.tables| == |s.tables| + 1 && s'.tables[1..] == s.tables
                  && FindDb(s'.tables, name).Some?
                  && var t := FindDb(s'.tables, name).value;
                     && T.Sound(t) && t.name == name && t.fields == [Field("key", Scalar(KInt))] + fields
                     && t.rows.Contents() == map[] && t.rowsCount == 0 && t.nextKey == 1
                     && forall f :: 0 <= f < |t.indexes| ==> t.indexes[f].Disabled?)
  {
    hide FindDb, T.Sound, LevelOf, NameOf, KeysOk, AllUsable, AllSound, DistinctNames;
    var t := T.Create(env.hash, name, fields);
    if fields != [] {
      Searches.CreateSound(env.hash, name, fields);
    }
    forall other
      ensures FindDb(AddDb(s.tables, t).0, other)
           == if AddDb(s.tables, t).1 == 0 && other == name then Some(t) else FindDb(s.tables, other)
    {
      AddDbEffect(s.tables, t, other);
    }
  }

  /** DEL_TABLE: the table is gone, or there was none. */
  lemma {:induction false} DropStep(env: Env, s: State, fd: int, name: string)
    requires From(s, fd, Admin)
    ensures var (s', reply) := Step(env, s, Sent(fd, DropTable(name)));
            && OtherTables(s, s', name) && FindDb(s'.tables, name) == None
            && (if FindDb(s.tables, name).Some? then reply == Number(1)
                else s' == s && reply == Message("Database not found"))
  {
    hide FindDb, LevelOf, NameOf, KeysOk, AllUsable, AllSound, DistinctNames, RemoveDb;
    forall other
      ensures FindDb(RemoveDb(s.tables, name).0, other) == if other == name then None else FindDb(s.tables, other)
    {
      RemoveDbEffect(s.tables, name, other);
    }
    RemoveNone(s.tables, name);
    RemoveDbEffect(s.tables, name, name);
  }

  lemma {:induction false} RemoveNone(tables: seq<T.Table>, name: string)
    ensures RemoveDb(tables, name).1 != 0 ==> RemoveDb(tables, name).0 == tables
    ensures RemoveDb(tables, name).1 == 0 || RemoveDb(tables, name).1 == -1
  {
  }

  // ---- Keys ----

  /** ADD_KEY: one key of this name, hash and role behind the others, and its token as answer; or nothing. */
  lemma {:induction false} NewKeyStep(env: Env, s: State, fd: int, name: string, token: string, hash: Option<string>, role: nat)
    requires From(s, fd, Admin) && |name| <= NAME_LIMIT
    ensures var (s', reply) := Step(env, s, Sent(fd, NewKey(name, token, hash, role)));
            var taken := exists i :: 0 <= i < |s.keys| && s.keys[i].name == name;
            if |s.keys| < 64 && !taken && hash.Some? then
              s' == s.(keys := s.keys + [AuthKey(name, hash.value, role)]) && reply == Text(token)
            else s' == s && reply == Message("Failed to add key: store full or name already exists")
  {
    hide LevelOf, NameOf, AllUsable, TablesOk;
    Permissions(env, s, fd, NewKey(name, token, hash, role));
  }

  /** DEL_KEY: the keys of other names stay, in order. */
  lemma {:induction false} DropKeyStep(env: Env, s: State, fd: int, name: string)
    requires From(s, fd, Admin)
    ensures var (s', reply) := Step(env, s, Sent(fd, DropKey(name)));
            && s' == s.(keys := Without(s.keys, name))
            && reply == if exists i :: 0 <= i < |s.keys| && s.keys[i].name == name then Number(1) else Message("Key not found")
  {
    hide LevelOf, NameOf, AllUsable, TablesOk, Without;
    Permissions(env, s, fd, DropKey(name));
    DelKeyIsWithout(s.keys, name);
  }

  // ---- Reading ----

  /** A query changes nothing and is answered from the table it names. */
  lemma {:induction false} ReadStep(env: Env, s: State, fd: int, name: string, query: Query)
    requires ServerOk(s) && Tracked(s.clients, fd) && LevelOf(s.clients, fd) != NoAuth
    ensures var (s', reply) := Step(env, s, Sent(fd, Read(name, query)));
            && s' == s
            && (FindDb(s.tables, name).None? ==> reply == Message("Database not found"))
            && (FindDb(s.tables, name).Some? ==>
                  && T.Sound(FindDb(s.tables, name).value) && Usable(FindDb(s.tables, name).value)
                  && reply == Answer(FindDb(s.tables, name).value, query, env.g))
  {
    hide FindDb, LevelOf, NameOf, Answer, T.Sound, Usable, KeysOk;
    Permissions(env, s, fd, Read(name, query));
    if FindDb(s.tables, name).Some? {
      FoundSound(s.tables, name);
    }
  }

  /** COUNT answers with the number of stored rows. */
  lemma {:induction false} CountStep(env: Env, s: State, fd: int, name: string)
    requires ServerOk(s) && Tracked(s.clients, fd) && LevelOf(s.clients, fd) != NoAuth && FindDb(s.tables, name).Some?
    ensures T.Sound(FindDb(s.tables, name).value)
    ensures Step(env, s, Sent(fd, Read(name, Count))) == (s, Number(|FindDb(s.tables, name).value.rows.Contents()|))
  {
    hide FindDb, LevelOf, ServerOk;
    ReadStep(env, s, fd, name, Count);
  }

  /** WHOAMI answers with the client's name. */
  lemma {:induction false} WhoamiStep(env: Env, s: State, fd: int)
    requires ServerOk(s) && Tracked(s.clients, fd) && LevelOf(s.clients, fd) != NoAuth
    ensures Step(env, s, Sent(fd, Whoami)) == (s, Text(CopyName(NameOf(s.clients, fd))))
  {
    hide LevelOf, NameOf, TablesOk;
    Permissions(env, s, fd, Whoami);
    CopiedTwice(NameOf(s.clients, fd));
  }

  lemma {:induction false} CopiedTwice(name: string)
    ensures CopyName(CopyName(name)) == CopyName(name)
  {
  }
}
