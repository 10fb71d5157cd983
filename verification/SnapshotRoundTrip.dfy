/** Loading what was saved: the round trip, its effect on table order, and files that are cut or extended. */
module SnapshotRoundTrip {
  import opened Values
  import opened RowMap
  import opened Tables
  import opened TableRuns
  import opened Searches
  import opened Bytes
  import opened Spans
  import opened Snapshot
  import opened SnapshotRows
  import opened Catalog

  // ---- What can be saved, and what comes back ----

  /** A table within the limits CREATE enforces. */
  ghost predicate Storable(t: Table) {
    && Sound(t) && NameOk(t.name, MAX_DB_NAME_LENGTH) && |t.fields| <= 65
    && forall i :: 0 <= i < |t.fields| ==> NameOk(t.fields[i].name, MAX_FIELD_NAME_LENGTH)
  }

  /** The loaded table: same name, schema and rows, no indexes, the key counter just past the largest key. */
  ghost predicate Restores(t: Table, t': Table) {
    && Sound(t) && Sound(t') && t'.name == t.name && t'.fields == t.fields && NoIndexes(t')
    && t'.rowsCount == t.rowsCount && t'.rows.Contents() == NormalMap(t.rows.Contents())
    && IsCounter(t.rows.Contents(), t'.nextKey)
  }

  /** max(1, largest key + 1). */
  ghost predicate IsCounter(m: map<int, Row>, c: int) {
    && 1 <= c && (forall k :: k in m ==> k < c) && (c == 1 || c - 1 in m)
  }

  lemma {:induction false} CounterMeaning(start: int, nodes: Chain)
    requires Distinct(nodes)
    ensures CounterAfter(start, nodes) >= start
    ensures forall k :: k in ToMap(nodes) ==> k < CounterAfter(start, nodes)
    ensures CounterAfter(start, nodes) == start || CounterAfter(start, nodes) - 1 in ToMap(nodes)
    decreases |nodes|
  {
    if nodes != [] {
      CounterMeaning(if nodes[0].key >= start then nodes[0].key + 1 else start, nodes[1..]);
    }
  }

  // ---- One table ----

  lemma {:induction false} FreshLoadable(t: Table, hash: int -> nat)
    requires Sound(t)
    ensures var t0 := Create(hash, t.name, t.fields[1..]);
            Loadable(t0, Order(t)) && t0.fields == t.fields && t0.rows.Contents() == map[] && t0.rowsCount == 0
  {
    CreateSound(hash, t.name, t.fields[1..]);
    assert [t.fields[0]] + t.fields[1..] == t.fields;
    IterationOrder(t.rows);
    forall i | 0 <= i < |Order(t)|
      ensures 0 <= Order(t)[i].key < TWO_31 - 1
    {
      assert Order(t)[i] in Order(t);
    }
  }

  lemma {:induction false} RowsRestoreTable(t: Table, t0: Table, t': Table)
    requires Sound(t) && Sound(t0) && t0.fields == t.fields && t0.name == t.name
    requires t0.rows.Contents() == map[] && t0.rowsCount == 0 && t0.nextKey == 1
    requires RowsRestored(t0, t', Order(t))
    ensures Restores(t, t')
  {
    hide Sound;
    CounterMeaning(1, Order(t)) by {
      assert Distinct(Order(t)) by { SoundRows(t); }
    }
    SoundRows(t);
    assert map[] + NormalMap(ToMap(Order(t))) == NormalMap(ToMap(Order(t)));
  }

  lemma {:induction false} SoundRows(t: Table)
    requires Sound(t)
    ensures t.rows.Valid() && Distinct(Order(t)) && t.rows.Contents() == ToMap(Order(t))
    ensures t.rowsCount == |Order(t)| <= MAX_ROW_CAPACITY && |t.fields| >= 2 && RowsOk(t.fields, Order(t))
  {
    IterationOrder(t.rows);
  }

  /** The five parts of a saved table, each where the reader looks for it. */
  lemma {:induction false} TableParts(s: string, p: nat, t: Table)
    requires Sound(t) && HasAt(s, p, EncodeTable(t))
    ensures RowsOk(t.fields, Order(t)) && |t.fields| >= 2 && t.rowsCount >= 0
    ensures var q2 := p + 2 + |t.name|;
            var q3 := q2 + 4 + |EncodeFields(t.fields[1..])|;
            && HasAt(s, p, Le(|t.name|, 2)) && HasAt(s, p + 2, t.name)
            && HasAt(s, q2, Le(|t.fields| - 1, 4)) && HasAt(s, q2 + 4, EncodeFields(t.fields[1..]))
            && HasAt(s, q3, Le(t.rowsCount, 4)) && HasAt(s, q3 + 4, EncodeRows(t.fields, Order(t)))
            && p + |EncodeTable(t)| == q3 + 4 + |EncodeRows(t.fields, Order(t))|
  {
    hide Sound, HasAt, EncodeRows, EncodeFields;
    SoundRows(t);
    var rows := Le(t.rowsCount, 4) + EncodeRows(t.fields, Order(t));
    var fields := EncodeFields(t.fields[1..]);
    var count := Le(|t.fields| - 1, 4);
    var q2 := p + 2 + |t.name|;
    HasAtSplit(s, p, Le(|t.name|, 2), t.name + (count + (fields + rows)));
    HasAtSplit(s, p + 2, t.name, count + (fields + rows));
    HasAtSplit(s, q2, count, fields + rows);
    HasAtSplit(s, q2 + 4, fields, rows);
    HasAtSplit(s, q2 + 4 + |fields|, Le(t.rowsCount, 4), EncodeRows(t.fields, Order(t)));
  }

  /** The schema part of a saved table reads back. */
  lemma {:induction false} SchemaAt(s: string, p: nat, t: Table)
    requires Storable(t) && HasAt(s, p, EncodeTable(t))
    ensures var q2 := p + 2 + |t.name|;
            var q3 := q2 + 4 + |EncodeFields(t.fields[1..])|;
            && DecodeName(s, p, MAX_DB_NAME_LENGTH) == Got(t.name, q2)
            && ReadUint(s, q2, 4) == Got(|t.fields| - 1, q2 + 4)
            && DecodeFields(s, q2 + 4, |t.fields| - 1, []) == Got(t.fields[1..], q3)
            && ReadUint(s, q3, 4) == Got(t.rowsCount, q3 + 4)
  {
    hide Sound, HasAt, EncodeRows, EncodeFields, EncodeTable, DecodeName, DecodeFields, ReadUint;
    TableParts(s, p, t);
    SoundRows(t);
    Widths();
    NameAt(s, p, t.name, MAX_DB_NAME_LENGTH);
    var q2 := p + 2 + |t.name|;
    ReadUintAt(s, q2, |t.fields| - 1, 4);
    FieldsAt(s, q2 + 4, t.fields[1..], []);
    assert [] + t.fields[1..] == t.fields[1..];
    ReadUintAt(s, q2 + 4 + |EncodeFields(t.fields[1..])|, t.rowsCount, 4);
  }

  /** The rows of a saved table read back into a new table. */
  lemma {:induction false} TableRowsAt(s: string, p: nat, t: Table, hash: int -> nat, grow: nat -> bool)
    requires Sound(t) && RowsOk(t.fields, Order(t)) && HasAt(s, p, EncodeRows(t.fields, Order(t)))
    ensures |t.fields| >= 2 && t.rowsCount >= 0
    ensures var t0 := Create(hash, t.name, t.fields[1..]);
            Usable(t0) && var r := LoadRows(s, p, t0, t.rowsCount, grow);
            r.Got? && r.pos == p + |EncodeRows(t.fields, Order(t))| && Restores(t, r.value)
  {
    hide Sound, HasAt, EncodeRows, Loadable, LoadRows, Restores, RowsRestored;
    SoundRows(t);
    FreshLoadable(t, hash);
    CreateSound(hash, t.name, t.fields[1..]);
    var t0 := Create(hash, t.name, t.fields[1..]);
    RowsAt(s, p, t0, Order(t), grow);
    RowsRestoreTable(t, t0, LoadRows(s, p, t0, t.rowsCount, grow).value);
  }

  lemma {:induction false} TableAt(
      s: string, p: nat, t: Table, tables: seq<Table>, hash: int -> nat, grow: nat -> bool)
    requires Storable(t) && |tables| < MAX_DB_COUNT && FindDb(tables, t.name).None?
    requires HasAt(s, p, EncodeTable(t))
    ensures var r := LoadTable(s, p, tables, hash, grow);
            && r.Got? && r.pos == p + |EncodeTable(t)|
            && |r.value| == |tables| + 1 && r.value[1..] == tables && Restores(t, r.value[0])
  {
    hide Sound, HasAt, EncodeRows, EncodeFields, EncodeTable, DecodeName, DecodeFields, ReadUint, LoadRows, Restores;
    SchemaAt(s, p, t);
    TableParts(s, p, t);
    var q3 := p + 2 + |t.name| + 4 + |EncodeFields(t.fields[1..])|;
    TableRowsAt(s, q3 + 4, t, hash, grow);
    assert ([LoadRows(s, q3 + 4, Create(hash, t.name, t.fields[1..]), t.rowsCount, grow).value] + tables)[1..] == tables;
  }

  // ---- All tables ----

  lemma {:induction false} FindDbMeaning(tables: seq<Table>, name: string)
    ensures FindDb(tables, name).None? <==> forall i :: 0 <= i < |tables| ==> tables[i].name != name
    ensures FindDb(tables, name).Some? ==> FindDb(tables, name).value in tables && FindDb(tables, name).value.name == name
  {
    if tables != [] && tables[0].name != name {
      FindDbMeaning(tables[1..], name);
    }
  }

  ghost predicate AllStorable(tables: seq<Table>) {
    forall i :: 0 <= i < |tables| ==> Storable(tables[i])
  }

  /** The tables `ts`, loaded in order on top of `base`, end up in front of it in reverse. */
  ghost predicate StackedOn(ts: seq<Table>, base: seq<Table>, out: seq<Table>) {
    && |out| == |ts| + |base| && out[|ts|..] == base
    && forall i :: 0 <= i < |ts| ==> Restores(ts[i], out[|ts| - 1 - i])
  }

  ghost predicate RoomFor(ts: seq<Table>, base: seq<Table>) {
    && AllStorable(ts) && DistinctNames(ts) && |ts| + |base| <= MAX_DB_COUNT
    && forall i, j :: 0 <= i < |ts| && 0 <= j < |base| ==> ts[i].name != base[j].name
  }

  lemma {:induction false} TablesHead(s: string, p: nat, ts: seq<Table>)
    requires ts != [] && AllSound(ts) && HasAt(s, p, EncodeTables(ts))
    ensures AllSound(ts[1..]) && Sound(ts[0])
    ensures var q := p + |EncodeTable(ts[0])|;
            && HasAt(s, p, EncodeTable(ts[0])) && HasAt(s, q, EncodeTables(ts[1..]))
            && p + |EncodeTables(ts)| == q + |EncodeTables(ts[1..])|
  {
    hide HasAt, EncodeTable, Sound;
    HasAtSplit(s, p, EncodeTable(ts[0]), EncodeTables(ts[1..]));
  }

  lemma {:induction false} RoomStep(ts: seq<Table>, base: seq<Table>, base1: seq<Table>)
    requires ts != [] && RoomFor(ts, base) && |base1| == |base| + 1 && base1[1..] == base
    requires base1[0].name == ts[0].name
    ensures RoomFor(ts[1..], base1)
  {
    forall i, j | 0 <= i < |ts| - 1 && 0 <= j < |base1|
      ensures ts[1..][i].name != base1[j].name
    {
      assert j > 0 ==> base1[j] == base[j - 1];
    }
  }

  lemma {:induction false} StackedNone(base: seq<Table>)
    ensures StackedOn([], base, base)
  {
    assert base[0..] == base;
  }

  lemma {:induction false} StackStep(ts: seq<Table>, base: seq<Table>, base1: seq<Table>, out: seq<Table>)
    requires ts != [] && |base1| == |base| + 1 && base1[1..] == base && Restores(ts[0], base1[0])
    requires StackedOn(ts[1..], base1, out)
    ensures StackedOn(ts, base, out)
  {
    hide Restores;
    assert out[|ts|..] == out[|ts| - 1..][1..];
    assert out[|ts| - 1] == base1[0];
    forall i | 0 <= i < |ts|
      ensures Restores(ts[i], out[|ts| - 1 - i])
    {
      if i > 0 {
        assert ts[i] == ts[1..][i - 1];
      }
    }
  }

  lemma {:induction false} TablesAt(
      s: string, p: nat, ts: seq<Table>, base: seq<Table>, hash: int -> nat, grow: nat -> nat -> bool)
    requires RoomFor(ts, base) && AllSound(ts) && HasAt(s, p, EncodeTables(ts))
    ensures var r := LoadTables(s, p, |ts|, base, hash, grow);
            r.Got? && r.pos == p + |EncodeTables(ts)| && StackedOn(ts, base, r.value)
    decreases |ts|
  {
    hide Sound, Storable, HasAt, EncodeTable, LoadTable, StackedOn, FindDb;
    if ts == [] {
      StackedNone(base);
    } else {
      TablesHead(s, p, ts);
      FindDbMeaning(base, ts[0].name);
      assert Storable(ts[0]);
      TableAt(s, p, ts[0], base, hash, grow(|ts|));
      var r1 := LoadTable(s, p, base, hash, grow(|ts|));
      RoomStep(ts, base, r1.value);
      TablesAt(s, r1.pos, ts[1..], r1.value, hash, grow);
      StackStep(ts, base, r1.value, LoadTables(s, r1.pos, |ts| - 1, r1.value, hash, grow).value);
    }
  }

  // ---- Auth keys ----

  predicate KeyOk(k: AuthKey) {
    0 < |k.name| < AUTH_KEY_NAME_MAX && '\0' !in k.name && |k.hash| == HASH_BYTES && k.role < 256
  }

  predicate AllKeysOk(keys: seq<AuthKey>) {
    forall i :: 0 <= i < |keys| ==> KeyOk(keys[i])
  }

  lemma {:induction false} KeyAt(s: string, p: nat, k: AuthKey)
    requires KeyOk(k) && HasAt(s, p, EncodeKey(k))
    ensures DecodeKey(s, p) == Got(k, p + |EncodeKey(k)|)
  {
    hide HasAt;
    Widths();
    HasAtSplit(s, p, Le(|k.name|, 2), k.name + (Le(k.role, 1) + k.hash));
    HasAtSplit(s, p + 2, k.name, Le(k.role, 1) + k.hash);
    HasAtSplit(s, p + 2 + |k.name|, Le(k.role, 1), k.hash);
    ReadUintAt(s, p, |k.name|, 2);
    TakeAt(s, p + 2, k.name);
    CStringOf(k.name);
    ReadUintAt(s, p + 2 + |k.name|, k.role, 1);
    TakeAt(s, p + 2 + |k.name| + 1, k.hash);
  }

  lemma {:induction false} KeysAt(s: string, p: nat, keys: seq<AuthKey>, acc: seq<AuthKey>)
    requires AllKeysOk(keys) && HasAt(s, p, EncodeKeys(keys))
    ensures LoadKeys(s, p, |keys|, acc) == (Got((), p + |EncodeKeys(keys)|), acc + keys)
    decreases |keys|
  {
    hide HasAt, EncodeKey, DecodeKey, KeyOk;
    if keys == [] {
      assert acc + keys == acc;
    } else {
      HasAtSplit(s, p, EncodeKey(keys[0]), EncodeKeys(keys[1..]));
      KeyAt(s, p, keys[0]);
      KeysAt(s, p + |EncodeKey(keys[0])|, keys[1..], acc + [keys[0]]);
      MoveHead(acc, keys);
    }
  }

  // ---- The whole file ----

  ghost predicate StoreOk(tables: seq<Table>, keys: seq<AuthKey>) {
    && AllStorable(tables) && DistinctNames(tables) && |tables| <= MAX_DB_COUNT
    && AllKeysOk(keys) && |keys| <= AUTH_MAX_KEYS
  }

  lemma {:induction false} StoreSound(tables: seq<Table>, keys: seq<AuthKey>)
    requires StoreOk(tables, keys)
    ensures AllSound(tables)
  {
    hide Sound;
    forall i | 0 <= i < |tables|
      ensures Sound(tables[i])
    {
      assert Storable(tables[i]);
    }
  }

  lemma {:induction false} FileParts(s: string, tables: seq<Table>, keys: seq<AuthKey>)
    requires AllSound(tables) && HasAt(s, 0, Save(tables, keys))
    ensures var q := 15 + |EncodeTables(tables)|;
            && HasAt(s, 0, MAGIC) && HasAt(s, 7, Le(VERSION, 4)) && HasAt(s, 11, Le(|tables|, 4))
            && HasAt(s, 15, EncodeTables(tables)) && HasAt(s, q, Le(|keys|, 4)) && HasAt(s, q + 4, EncodeKeys(keys))
            && |Save(tables, keys)| == q + 4 + |EncodeKeys(keys)|
  {
    hide Sound, AllSound, HasAt, EncodeTables, EncodeKeys;
    var auth := Le(|keys|, 4) + EncodeKeys(keys);
    var e := EncodeTables(tables);
    HasAtSplit(s, 0, MAGIC, Le(VERSION, 4) + (Le(|tables|, 4) + (e + auth)));
    HasAtSplit(s, 7, Le(VERSION, 4), Le(|tables|, 4) + (e + auth));
    HasAtSplit(s, 11, Le(|tables|, 4), e + auth);
    HasAtSplit(s, 15, e, auth);
    HasAtSplit(s, 15 + |e|, Le(|keys|, 4), EncodeKeys(keys));
  }

  lemma {:induction false} BodyAt(s: string, tables: seq<Table>, keys: seq<AuthKey>, hash: int -> nat, grow: nat -> nat -> bool)
    requires StoreOk(tables, keys) && AllSound(tables) && HasAt(s, 0, Save(tables, keys))
    ensures var r := LoadBody(s, 11, hash, grow);
            r.Got? && r.pos == 15 + |EncodeTables(tables)| && StackedOn(tables, [], r.value)
  {
    hide HasAt, EncodeTables, Save, StackedOn, Storable, Sound, LoadTables, ReadUint;
    FileParts(s, tables, keys);
    Widths();
    ReadUintAt(s, 11, |tables|, 4);
    TablesAt(s, 15, tables, [], hash, grow);
  }

  lemma {:induction false} AuthAt(s: string, p: nat, tables: seq<Table>, keys: seq<AuthKey>)
    requires AllKeysOk(keys) && |keys| <= AUTH_MAX_KEYS
    requires HasAt(s, p, Le(|keys|, 4)) && HasAt(s, p + 4, EncodeKeys(keys))
    ensures LoadAuth(s, p, tables) == Loaded(0, tables, keys, p + 4 + |EncodeKeys(keys)|)
  {
    hide HasAt, EncodeKeys, KeyOk, LoadKeys, ReadUint;
    Widths();
    ReadUintAt(s, p, |keys|, 4);
    KeysAt(s, p + 4, keys, []);
    assert [] + keys == keys;
  }

  /** Loading a file that starts with a saved snapshot restores everything that was saved. */
  lemma {:induction false} LoadSaved(
      s: string, tables: seq<Table>, keys: seq<AuthKey>, hash: int -> nat, grow: nat -> nat -> bool)
    requires StoreOk(tables, keys) && AllSound(tables) && HasAt(s, 0, Save(tables, keys))
    ensures var l := Load(s, hash, grow);
            && l.code == 0 && l.used == |Save(tables, keys)| && l.keys == keys
            && StackedOn(tables, [], l.tables)
  {
    hide HasAt, EncodeTables, EncodeKeys, Save, StackedOn, Storable, Sound, LoadBody, LoadAuth, ReadUint, Take;
    FileParts(s, tables, keys);
    TakeAt(s, 0, MAGIC);
    Widths();
    ReadUintAt(s, 7, VERSION, 4);
    BodyAt(s, tables, keys, hash, grow);
    AuthAt(s, 15 + |EncodeTables(tables)|, LoadBody(s, 11, hash, grow).value, keys);
  }

  /**
   * The snapshot round trip: loading into empty storage what saving wrote succeeds, consumes
   * the whole snapshot, restores the ordered keys, and restores every table in reverse order;
   * bytes after the snapshot change nothing.
   */
  lemma {:induction false} RoundTrip(
      tables: seq<Table>, keys: seq<AuthKey>, extra: string, hash: int -> nat, grow: nat -> nat -> bool)
    requires StoreOk(tables, keys) && AllSound(tables)
    ensures var l := Load(Save(tables, keys) + extra, hash, grow);
            && l.code == 0 && l.used == |Save(tables, keys)| && l.keys == keys && |l.tables| == |tables|
            && forall i :: 0 <= i < |tables| ==> Restores(tables[i], l.tables[|tables| - 1 - i])
  {
    hide Save, Load, Restores, StoreOk;
    var s := Save(tables, keys);
    HasAtStart(s, extra);
    LoadSaved(s + extra, tables, keys, hash, grow);
  }
}
