/** Saving a running server and starting again from the file. */
module ServerSnapshots {
  import opened Values
  import opened RowMap
  import opened Connections
  import opened AuthKeys
  import opened Snapshot
  import opened SnapshotRows
  import opened SnapshotRoundTrip
  import opened SnapshotCuts
  import opened Catalog
  import opened Server
  import opened Sessions
  import opened ServerRuns
  import opened ServerAnswers
  import T = Tables
  import Searches

  // ---- Every reachable server can be saved ----

  /** New names fit their slots and hashes their field, as the parser and the hash library guarantee. */
  ghost predicate NamesOk(cmd: Command) {
    match cmd
    case NewTable(name, fields) =>
      '\0' !in name && forall i :: 0 <= i < |fields| ==> NameOk(fields[i].name, MAX_FIELD_NAME_LENGTH)
    case NewKey(name, _, hash, role) =>
      0 < |name| && '\0' !in name && role < 256 && (hash.Some? ==> |hash.value| == HASH_BYTES)
    case _ => true
  }

  ghost predicate EventNamesOk(e: Event) {
    e.Ready? && e.input.Line? ==> NamesOk(e.input.command)
  }

  lemma {:induction false} WriteStorable(tables: seq<T.Table>, name: string, change: Change)
    requires TablesOk(tables) && AllStorable(tables) && WellFormedChange(change) && CommandOk(tables, Write(name, change))
    ensures AllStorable(ExecuteWrite(tables, name, change).0)
  {
    hide T.Sound, T.Current, Usable, ExecuteOn, Changed, FindDb, ChangeOk;
    if FindDb(tables, name).Some? {
      var t := FindDb(tables, name).value;
      FoundSound(tables, name);
      ChangeKeeps(t, change);
      ChangedEffect(tables, ExecuteOn(t, change).0, name);
      assert Storable(t);
    }
  }

  lemma {:induction false} NewTableStorable(env: Env, tables: seq<T.Table>, name: string, fields: seq<Field>)
    requires AllStorable(tables) && NamesOk(NewTable(name, fields))
    ensures AllStorable(ExecuteNewTable(env, tables, name, fields).0)
  {
    hide T.Sound, T.Current, FindDb;
    if 0 < |fields| <= MAX_FIELDS_PER_DB {
      var t := T.Create(env.hash, CopyName(name), fields);
      Searches.CreateSound(env.hash, CopyName(name), fields);
      forall i | 0 <= i < |t.fields|
        ensures NameOk(t.fields[i].name, MAX_FIELD_NAME_LENGTH)
      {
        if i > 0 {
          assert t.fields[i] == fields[i - 1];
        }
      }
      assert Storable(t);
    }
  }

  lemma {:induction false} DropTableStorable(tables: seq<T.Table>, name: string)
    requires DistinctNames(tables) && AllStorable(tables)
    ensures AllStorable(RemoveDb(tables, name).0)
  {
    hide Storable, RemoveDb, FindDb;
    RemoveDbEffect(tables, name, name);
    var after := RemoveDb(tables, name).0;
    forall i | 0 <= i < |after|
      ensures Storable(after[i])
    {
      assert after[i] in tables;
    }
  }

  lemma {:induction false} KeysStorable(keys: seq<AuthKey>, cmd: Command)
    requires AllKeysOk(keys) && NamesOk(cmd)
    ensures cmd.NewKey? ==> AllKeysOk(AddKey(keys, cmd.name, cmd.hash, cmd.role).0)
    ensures cmd.DropKey? ==> AllKeysOk(DelKey(keys, cmd.name).0)
  {
  }

  lemma {:induction false} ExecuteStorable(env: Env, tables: seq<T.Table>, keys: seq<AuthKey>, who: string, cmd: Command)
    requires TablesOk(tables) && AllStorable(tables) && AllKeysOk(keys)
    requires WellFormed(cmd) && CommandOk(tables, cmd) && NamesOk(cmd)
    ensures AllStorable(Execute(env, tables, keys, who, cmd).0) && AllKeysOk(Execute(env, tables, keys, who, cmd).1)
  {
    hide Storable, KeyOk, ExecuteNewTable, ExecuteRead, RemoveDb, AddKey, DelKey, ExecuteWrite, KeyTable, ChangeOk, FindDb;
    KeysStorable(keys, cmd);
    match cmd {
      case Write(name, change) => WriteStorable(tables, name, change);
      case NewTable(name, fields) => NewTableStorable(env, tables, name, fields);
      case DropTable(name) => DropTableStorable(tables, name);
      case _ =>
    }
  }

  lemma {:induction false} StepStorable(env: Env, s: State, e: Event)
    requires ServerOk(s) && EventFormed(e) && EventOk(s, e) && EventNamesOk(e) && AllStorable(s.tables) && AllKeysOk(s.keys)
    ensures AllStorable(Step(env, s, e).0.tables) && AllKeysOk(Step(env, s, e).0.keys)
  {
    hide AllStorable, AllKeysOk, AllSound, Execute, Granted, Joined, Left, LevelOf, NameOf, VerifyToken, CommandOk, NamesOk;
    var after := Step(env, s, e).0;
    if after.tables != s.tables || after.keys != s.keys {
      ChangeIsAdmins(env, s, e);
      ExecuteStorable(env, s.tables, s.keys, CopyName(NameOf(s.clients, e.fd)), e.input.command);
    }
  }

  lemma {:induction false} RunStorable(env: Env, states: seq<State>, events: seq<Event>, n: nat)
    requires IsRun(env, states, events) && n < |states|
    requires StoreOk(states[0].tables, states[0].keys) && forall i :: 0 <= i < |events| ==> EventNamesOk(events[i])
    ensures AllStorable(states[n].tables) && AllKeysOk(states[n].keys)
    decreases n
  {
    hide ServerOk, EventOk, Step, AllStorable, AllKeysOk, EventNamesOk;
    if n > 0 {
      RunStorable(env, states, events, n - 1);
      RunKeeps(env, states, events, n - 1);
      assert Next(env, states[n - 1], events[n - 1], states[n]);
      StepStorable(env, states[n - 1], events[n - 1]);
    }
  }

  lemma {:induction false} ReachedStoreOk(s: State)
    requires ServerOk(s) && AllStorable(s.tables) && AllKeysOk(s.keys)
    ensures StoreOk(s.tables, s.keys) && AllSound(s.tables)
  {
  }

  // ---- Starting again ----

  /** The state main starts from after a load: no clients, and an admin key when none was loaded. */
  function Started(l: Loaded, max: nat, adminHash: Option<string>): State {
    State([], max, Bootstrapped(l.keys, adminHash), l.tables, true)
  }

  /** Without keys, one named admin is added; hashing its token may fail. */
  function Bootstrapped(keys: seq<AuthKey>, adminHash: Option<string>): seq<AuthKey> {
    if keys == [] then AddKey([], "admin", adminHash, ROLE_ADMIN).0 else keys
  }

  lemma {:induction false} BootstrapOk(keys: seq<AuthKey>, adminHash: Option<string>)
    requires KeysOk(keys) && AllKeysOk(keys) && (adminHash.Some? ==> |adminHash.value| == HASH_BYTES)
    ensures KeysOk(Bootstrapped(keys, adminHash)) && AllKeysOk(Bootstrapped(keys, adminHash))
    ensures keys == [] && adminHash.Some? ==>
      exists k :: k in Bootstrapped(keys, adminHash) && k.role == ROLE_ADMIN && k.hash == adminHash.value
  {
    if keys == [] && adminHash.Some? {
      assert Bootstrapped(keys, adminHash)[0] == AuthKey("admin", adminHash.value, ROLE_ADMIN);
    }
  }

  lemma {:induction false} RestoredCurrent(t: T.Table, t': T.Table)
    requires Restores(t, t')
    ensures T.Sound(t') && Usable(t') && T.Current(t')
  {
    assert forall f :: 0 <= f < |t'.indexes| ==> t'.indexes[f].Disabled?;
    SoundIsUsable(t');
  }

  lemma {:induction false} LoadedTables(ts: seq<T.Table>, out: seq<T.Table>, keys: seq<AuthKey>)
    requires StoreOk(ts, keys) && |out| == |ts|
    requires forall i :: 0 <= i < |ts| ==> Restores(ts[i], out[|ts| - 1 - i])
    ensures TablesOk(out) && AllCurrent(out) && StoreOk(out, keys)
  {
    hide Restores, Storable, AllKeysOk, T.Sound, T.Current, Usable;
    RestoredStore(ts, out, keys);
    forall j | 0 <= j < |out|
      ensures T.Sound(out[j]) && Usable(out[j]) && T.Current(out[j])
    {
      assert Restores(ts[|ts| - 1 - j], out[j]);
      RestoredCurrent(ts[|ts| - 1 - j], out[j]);
    }
  }

  /**
   * Stop a server at any point of any run: the file it saves loads, restores every table
   * and key, and the restarted server meets every condition a run starts from. So all
   * guarantees over runs hold across restarts.
   */
  lemma {:induction false} RestartOk(
      env: Env, states: seq<State>, events: seq<Event>, n: nat, hash: int -> nat, grow: nat -> nat -> bool,
      adminHash: Option<string>)
    requires IsRun(env, states, events) && n < |states|
    requires StoreOk(states[0].tables, states[0].keys) && forall i :: 0 <= i < |events| ==> EventNamesOk(events[i])
    requires adminHash.Some? ==> |adminHash.value| == HASH_BYTES
    ensures AllSound(states[n].tables)
    ensures var l := Load(Save(states[n].tables, states[n].keys), hash, grow);
            && l.code == 0 && l.keys == states[n].keys && |l.tables| == |states[n].tables|
            && (forall i :: 0 <= i < |l.tables| ==> Restores(states[n].tables[i], l.tables[|l.tables| - 1 - i]))
            && var s := Started(l, states[n].max, adminHash);
               ServerOk(s) && AllCurrent(s.tables) && StoreOk(s.tables, s.keys)
  {
    hide Save, Load, Restores, EventNamesOk, Storable, KeyOk, T.Sound, EventOk, Step;
    RunKeeps(env, states, events, n);
    RunStorable(env, states, events, n);
    var s := states[n];
    ReachedStoreOk(s);
    RoundTrip(s.tables, s.keys, [], hash, grow);
    assert Save(s.tables, s.keys) + [] == Save(s.tables, s.keys);
    var l := Load(Save(s.tables, s.keys), hash, grow);
    LoadedTables(s.tables, l.tables, s.keys);
    BootstrapOk(s.keys, adminHash);
  }
}
