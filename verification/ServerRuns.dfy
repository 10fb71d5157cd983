/** What every run of the event loop guarantees. */
module ServerRuns {
  import opened Values
  import opened RowMap
  import opened Connections
  import opened AuthKeys
  import opened Snapshot
  import opened Catalog
  import opened TableText
  import opened Validation
  import opened Server
  import opened Sessions
  import T = Tables
  import Searches

  // ---- What every step keeps ----

  ghost predicate TablesOk(tables: seq<T.Table>) {
    AllUsable(tables) && AllSound(tables) && DistinctNames(tables) && |tables| <= MAX_DB_COUNT
  }

  ghost predicate ServerOk(s: State) {
    TablesOk(s.tables) && KeysOk(s.keys) && DistinctFds(s.clients) && |s.clients| <= s.max
  }

  /**
   * The values come from the parser and are not mislabelled for their column; the key
   * leaves room for the 32-bit counter; the clock fits 64 bits.
   */
  ghost predicate ChangeOk(t: T.Table, change: Change) {
    match change
    case Add(autoKey, key, values, now, _, _) =>
      && IsI64(now) && T.ActualKey(t, if autoKey then -1 else key) < TWO_31 - 1
      && (|values| == |t.fields| - 1 ==>
            forall j :: 0 <= j < |values| ==> FromParser(values[j]) && !Mislabelled(values[j], t.fields[j + 1].ty))
    case Up(_, values, ignore, now, _) =>
      && IsI64(now) && |ignore| == |values|
      && (|values| == |t.fields| - 1 ==>
            forall j :: 0 <= j < |values| && !ignore[j] ==>
              FromParser(values[j]) && !Mislabelled(values[j], t.fields[j + 1].ty))
    case Del(_, _) => true
    case NewIndex(_, _) => true
  }

  ghost predicate CommandOk(tables: seq<T.Table>, cmd: Command) {
    && (cmd.Write? && FindDb(tables, cmd.table).Some? ==> ChangeOk(FindDb(tables, cmd.table).value, cmd.change))
    && (cmd.NewKey? ==> |cmd.name| <= NAME_LIMIT)
  }

  /** Accept hands out untracked descriptors; what an admin sends meets the conditions above. */
  ghost predicate EventOk(s: State, e: Event) {
    match e
    case Signal => true
    case Connect(fd, _) => !Tracked(s.clients, fd)
    case Ready(fd, Hangup) => true
    case Ready(fd, Line(cmd)) => WellFormed(cmd) && (LevelOf(s.clients, fd) == Admin ==> CommandOk(s.tables, cmd))
  }

  /** An UP was answered that a limit was exceeded. */
  predicate LimitHit(change: Change, reply: Reply) {
    change.Up? && reply == LIMIT_EXCEEDED
  }

  lemma {:induction false} SoundIsUsable(t: T.Table)
    requires T.Sound(t)
    ensures Usable(t)
  {
  }

  lemma {:induction false} AddOpKeeps(t: T.Table, cmd: Change)
    requires T.Sound(t) && Usable(t) && cmd.Add? && ChangeOk(t, cmd)
    ensures var t' := ExecuteAdd(t, cmd).0; T.Sound(t') && t'.name == t.name && t'.fields == t.fields && (T.Current(t) ==> T.Current(t'))
  {
    hide T.Sound, T.Current, T.AddRow, CheckAddedValues, FromParser, Mislabelled, Typed;
    if |t.fields| - 1 == |cmd.values| && CheckAddedValues(t.fields, cmd.values, 0) == 0 {
      AddedValuesTyped(t.fields, cmd.values, 0);
      Searches.StepKeeps(t, T.Add(if cmd.autoKey then -1 else cmd.key, cmd.values, cmd.now, cmd.growOk, cmd.lost));
    }
  }

  lemma {:induction false} UpOpKeeps(t: T.Table, cmd: Change)
    requires T.Sound(t) && Usable(t) && cmd.Up? && ChangeOk(t, cmd)
    ensures var (t', reply) := ExecuteUp(t, cmd);
            && T.Sound(t') && t'.name == t.name && t'.fields == t.fields
            && (T.Current(t) && !LimitHit(cmd, reply) ==> T.Current(t'))
  {
    hide T.Sound, T.Current, T.UpdateRow, CheckUpdates, FromParser, Mislabelled, Typed;
    if |t.fields| - 1 == |cmd.values| && CheckUpdates(t.fields, cmd.values, cmd.ignore, 0) == 0 {
      UpdatesTyped(t.fields, cmd.values, cmd.ignore, 0);
      Searches.StepKeeps(t, T.Up(cmd.key, cmd.values, cmd.ignore, cmd.now, cmd.lost));
    }
  }

  /** A change keeps its table sound, and its indexes current unless an UP hit a limit. */
  lemma {:induction false} ChangeKeeps(t: T.Table, cmd: Change)
    requires T.Sound(t) && Usable(t) && ChangeOk(t, cmd) && WellFormedChange(cmd)
    ensures var (t', reply) := ExecuteOn(t, cmd);
            && T.Sound(t') && Usable(t') && t'.name == t.name && t'.fields == t.fields
            && (T.Current(t) && !LimitHit(cmd, reply) ==> T.Current(t'))
  {
    hide T.Sound, T.Current, T.DeleteRow, T.CreateIndex, ExecuteAdd, ExecuteUp;
    match cmd {
      case Add(_, _, _, _, _, _) => AddOpKeeps(t, cmd);
      case Up(_, _, _, _, _) => UpOpKeeps(t, cmd);
      case Del(key, lost) => Searches.StepKeeps(t, T.Del(key, lost));
      case NewIndex(field, allocOk) => Searches.StepKeeps(t, T.Index(FieldPlace(t.fields, field), allocOk));
    }
    SoundIsUsable(ExecuteOn(t, cmd).0);
  }

  lemma {:induction false} FoundSound(tables: seq<T.Table>, name: string)
    requires TablesOk(tables) && FindDb(tables, name).Some?
    ensures var t := FindDb(tables, name).value;
            t in tables && T.Sound(t) && Usable(t) && t.name == name
  {
    hide T.Sound;
    FindDbPlace(tables, name);
  }

  lemma {:induction false} WriteKeeps(tables: seq<T.Table>, name: string, change: Change)
    requires TablesOk(tables) && WellFormedChange(change) && CommandOk(tables, Write(name, change))
    ensures TablesOk(ExecuteWrite(tables, name, change).0)
  {
    hide T.Sound, Usable, ExecuteOn, Changed, FindDb, ChangeOk;
    if FindDb(tables, name).Some? {
      var t := FindDb(tables, name).value;
      FoundSound(tables, name);
      ChangeKeeps(t, change);
      ChangedEffect(tables, ExecuteOn(t, change).0, name);
    }
  }

  lemma {:induction false} NewTableKeeps(env: Env, tables: seq<T.Table>, name: string, fields: seq<Field>)
    requires TablesOk(tables)
    ensures TablesOk(ExecuteNewTable(env, tables, name, fields).0)
  {
    hide T.Sound, Usable, T.Current, FindDb, T.Create;
    if fields != [] {
      var t := T.Create(env.hash, CopyName(name), fields);
      Searches.CreateSound(env.hash, CopyName(name), fields);
      SoundIsUsable(t);
      AddDbEffect(tables, t, name);
    }
  }

  lemma {:induction false} DropTableKeeps(tables: seq<T.Table>, name: string)
    requires TablesOk(tables)
    ensures TablesOk(RemoveDb(tables, name).0)
  {
    hide T.Sound, Usable, RemoveDb, FindDb;
    RemoveDbEffect(tables, name, name);
    var after := RemoveDb(tables, name).0;
    forall i | 0 <= i < |after|
      ensures T.Sound(after[i]) && Usable(after[i])
    {
      assert after[i] in tables;
    }
  }

  lemma {:induction false} ExecuteKeeps(env: Env, tables: seq<T.Table>, keys: seq<AuthKey>, who: string, cmd: Command)
    requires TablesOk(tables) && KeysOk(keys) && WellFormed(cmd) && CommandOk(tables, cmd)
    ensures TablesOk(Execute(env, tables, keys, who, cmd).0)
    ensures KeysOk(Execute(env, tables, keys, who, cmd).1)
  {
    hide TablesOk, KeysOk, ExecuteNewTable, ExecuteRead, RemoveDb, AddKey, DelKey, ExecuteWrite, KeyTable, ChangeOk, FindDb;
    match cmd {
      case Write(name, change) => WriteKeeps(tables, name, change);
      case NewTable(name, fields) => NewTableKeeps(env, tables, name, fields);
      case DropTable(name) => DropTableKeeps(tables, name);
      case NewKey(name, token, hash, role) => NewKeyKeeps(keys, name, hash, role);
      case DropKey(name) => DelKeyKeeps(keys, name);
      case _ =>
    }
  }

  lemma {:induction false} NewKeyKeeps(keys: seq<AuthKey>, name: string, hash: Option<string>, role: nat)
    requires KeysOk(keys) && |name| <= NAME_LIMIT
    ensures KeysOk(AddKey(keys, name, hash, role).0)
  {
    hide KeysOk;
    if AddKey(keys, name, hash, role).1 == 0 {
      AddKeyKeepsIff(keys, name, hash, role);
    }
  }

  /** Every step keeps tables sound and distinct, key names unique, descriptors distinct and within capacity. */
  lemma {:induction false} StepKeeps(env: Env, s: State, e: Event)
    requires ServerOk(s) && EventOk(s, e) && EventFormed(e)
    ensures ServerOk(Step(env, s, e).0)
  {
    hide Execute, AllSound, KeysOk, Granted, Joined, Left, LevelOf, NameOf, VerifyToken, CommandOk;
    ClientsKept(env, s, e);
    var after := Step(env, s, e).0;
    if after.tables != s.tables || after.keys != s.keys {
      ChangeIsAdmins(env, s, e);
      ExecuteKeeps(env, s.tables, s.keys, CopyName(NameOf(s.clients, e.fd)), e.input.command);
    }
  }

  // ---- Runs ----

  /** The loop goes from s to s' on e. */
  ghost predicate Next(env: Env, s: State, e: Event, s': State) {
    ServerOk(s) ==> EventFormed(e) && EventOk(s, e) && s' == Step(env, s, e).0
  }

  ghost predicate IsRun(env: Env, states: seq<State>, events: seq<Event>) {
    && |states| == |events| + 1 && ServerOk(states[0])
    && forall i :: 0 <= i < |events| ==> Next(env, states[i], events[i], states[i + 1])
  }

  lemma {:induction false} RunKeeps(env: Env, states: seq<State>, events: seq<Event>, n: nat)
    requires IsRun(env, states, events) && n < |states|
    ensures ServerOk(states[n])
    decreases n
  {
    hide ServerOk, EventOk, Step;
    if n > 0 {
      RunKeeps(env, states, events, n - 1);
      assert Next(env, states[n - 1], events[n - 1], states[n]);
      StepKeeps(env, states[n - 1], events[n - 1]);
    }
  }
}
