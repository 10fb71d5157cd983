/** Files that are cut short or extended, and two save/load cycles in a row. */
module SnapshotCuts {
  import opened Values
  import opened RowMap
  import opened Tables
  import opened Bytes
  import opened Spans
  import opened Snapshot
  import opened SnapshotRows
  import opened SnapshotRoundTrip
  import opened Catalog

  // ---- A successful read is not changed by bytes after it ----

  lemma {:induction false} ScalarExtends(s: string, p: nat, k: Kind, x: string)
    requires DecodeScalar(s, p, k).Got?
    ensures DecodeScalar(s + x, p, k) == DecodeScalar(s, p, k)
  {
    match k
    case KInt => ReadUintExtends(s, p, 4, x);
    case KDouble => ReadUintExtends(s, p, 8, x);
    case KBool => ReadUintExtends(s, p, 1, x);
    case KString =>
      ReadUintExtends(s, p, 4, x);
      var r := ReadUint(s, p, 4);
      if r.value != NULL_STRING {
        TakeExtends(s, r.pos, r.value, x);
      }
  }

  lemma {:induction false} ScalarsExtend(s: string, p: nat, k: Kind, n: nat, acc: seq<Data>, x: string)
    requires DecodeScalars(s, p, k, n, acc).Got?
    ensures DecodeScalars(s + x, p, k, n, acc) == DecodeScalars(s, p, k, n, acc)
    decreases n
  {
    hide DecodeScalar;
    if n > 0 {
      ScalarExtends(s, p, k, x);
      var r := DecodeScalar(s, p, k);
      ScalarsExtend(s, r.pos, k, n - 1, acc + [r.value], x);
    }
  }

  lemma {:induction false} CellExtends(s: string, p: nat, ty: FieldType, x: string)
    requires DecodeCell(s, p, ty).Got?
    ensures DecodeCell(s + x, p, ty) == DecodeCell(s, p, ty)
  {
    hide DecodeScalar, DecodeScalars, ReadUint;
    match ty
    case Scalar(k) => ScalarExtends(s, p, k, x);
    case Array(k) =>
      ReadUintExtends(s, p, 4, x);
      var r := ReadUint(s, p, 4);
      ScalarsExtend(s, r.pos, k, r.value, [], x);
  }

  lemma {:induction false} CellsExtend(s: string, p: nat, fields: seq<Field>, acc: seq<Data>, x: string)
    requires DecodeCells(s, p, fields, acc).Got?
    ensures DecodeCells(s + x, p, fields, acc) == DecodeCells(s, p, fields, acc)
    decreases |fields|
  {
    hide DecodeCell;
    if fields != [] {
      CellExtends(s, p, fields[0].ty, x);
      var r := DecodeCell(s, p, fields[0].ty);
      CellsExtend(s, r.pos, fields[1..], acc + [r.value], x);
    }
  }

  lemma {:induction false} NameExtends(s: string, p: nat, limit: nat, x: string)
    requires DecodeName(s, p, limit).Got?
    ensures DecodeName(s + x, p, limit) == DecodeName(s, p, limit)
  {
    hide ReadUint, Take;
    ReadUintExtends(s, p, 2, x);
    var r := ReadUint(s, p, 2);
    TakeExtends(s, r.pos, r.value, x);
  }

  lemma {:induction false} FieldsExtend(s: string, p: nat, n: nat, acc: seq<Field>, x: string)
    requires DecodeFields(s, p, n, acc).Got?
    ensures DecodeFields(s + x, p, n, acc) == DecodeFields(s, p, n, acc)
    decreases n
  {
    hide DecodeName, ReadUint;
    if n > 0 {
      NameExtends(s, p, MAX_FIELD_NAME_LENGTH, x);
      ReadUintExtends(s, DecodeName(s, p, MAX_FIELD_NAME_LENGTH).pos, 1, x);
      var r := DecodeField(s, p);
      FieldsExtend(s, r.pos, n - 1, acc + [r.value], x);
    }
  }

  lemma {:induction false} RowExtends(s: string, p: nat, t: Table, growOk: bool, x: string)
    requires Usable(t) && LoadRow(s, p, t, growOk).Got?
    ensures LoadRow(s + x, p, t, growOk) == LoadRow(s, p, t, growOk)
  {
    hide ReadUint, DecodeCells, AddRow, SetTimestamps;
    ReadUintExtends(s, p, 4, x);
    var q := ReadInt(s, p, 4).pos;
    CellsExtend(s, q, t.fields[1..], [], x);
    var q2 := DecodeCells(s, q, t.fields[1..], []).pos;
    ReadUintExtends(s, q2, 8, x);
    ReadUintExtends(s, q2 + 8, 8, x);
  }

  lemma {:induction false} RowsExtend(s: string, p: nat, t: Table, n: nat, grow: nat -> bool, x: string)
    requires Usable(t) && LoadRows(s, p, t, n, grow).Got?
    ensures LoadRows(s + x, p, t, n, grow) == LoadRows(s, p, t, n, grow)
    decreases n
  {
    hide LoadRow;
    if n > 0 {
      RowExtends(s, p, t, grow(n), x);
      var r := LoadRow(s, p, t, grow(n));
      RowsExtend(s, r.pos, r.value, n - 1, grow, x);
    }
  }

  lemma {:induction false} TableExtends(
      s: string, p: nat, tables: seq<Table>, hash: int -> nat, grow: nat -> bool, x: string)
    requires LoadTable(s, p, tables, hash, grow).Got?
    ensures LoadTable(s + x, p, tables, hash, grow) == LoadTable(s, p, tables, hash, grow)
  {
    hide DecodeName, ReadUint, DecodeFields, LoadRows, AddDb;
    NameExtends(s, p, MAX_DB_NAME_LENGTH, x);
    var name := DecodeName(s, p, MAX_DB_NAME_LENGTH);
    ReadUintExtends(s, name.pos, 4, x);
    var n := ReadUint(s, name.pos, 4);
    FieldsExtend(s, n.pos, n.value, [], x);
    var fields := DecodeFields(s, n.pos, n.value, []);
    ReadUintExtends(s, fields.pos, 4, x);
    var count := ReadUint(s, fields.pos, 4);
    RowsExtend(s, count.pos, Create(hash, name.value, fields.value), count.value, grow, x);
  }

  lemma {:induction false} TablesExtend(
      s: string, p: nat, n: nat, tables: seq<Table>, hash: int -> nat, grow: nat -> nat -> bool, x: string)
    requires LoadTables(s, p, n, tables, hash, grow).Got?
    ensures LoadTables(s + x, p, n, tables, hash, grow) == LoadTables(s, p, n, tables, hash, grow)
    decreases n
  {
    hide LoadTable;
    if n > 0 {
      TableExtends(s, p, tables, hash, grow(n), x);
      var r := LoadTable(s, p, tables, hash, grow(n));
      TablesExtend(s, r.pos, n - 1, r.value, hash, grow, x);
    }
  }

  lemma {:induction false} KeyExtends(s: string, p: nat, x: string)
    requires DecodeKey(s, p).Got?
    ensures DecodeKey(s + x, p) == DecodeKey(s, p)
  {
    hide ReadUint, Take;
    ReadUintExtends(s, p, 2, x);
    var n := ReadUint(s, p, 2);
    TakeExtends(s, n.pos, n.value, x);
    ReadUintExtends(s, n.pos + n.value, 1, x);
    TakeExtends(s, n.pos + n.value + 1, HASH_BYTES, x);
  }

  /** Keys read so far stay; more bytes can only add keys behind them. */
  lemma {:induction false} KeysExtend(s: string, p: nat, n: nat, keys: seq<AuthKey>, x: string)
    ensures LoadKeys(s, p, n, keys).0.Got? ==> LoadKeys(s + x, p, n, keys) == LoadKeys(s, p, n, keys)
    ensures LoadKeys(s, p, n, keys).1 <= LoadKeys(s + x, p, n, keys).1
    decreases n
  {
    hide DecodeKey;
    if n > 0 {
      if DecodeKey(s, p).Got? {
        KeyExtends(s, p, x);
        var r := DecodeKey(s, p);
        KeysExtend(s, r.pos, n - 1, keys + [r.value], x);
      } else {
        KeysGrow(s + x, p, n, keys);
      }
    }
  }

  lemma {:induction false} KeysGrow(s: string, p: nat, n: nat, keys: seq<AuthKey>)
    ensures keys <= LoadKeys(s, p, n, keys).1
    decreases n
  {
    hide DecodeKey;
    if n > 0 && DecodeKey(s, p).Got? {
      var r := DecodeKey(s, p);
      KeysGrow(s, r.pos, n - 1, keys + [r.value]);
    }
  }

  lemma {:induction false} BodyExtends(s: string, p: nat, hash: int -> nat, grow: nat -> nat -> bool, x: string)
    requires LoadBody(s, p, hash, grow).Got?
    ensures LoadBody(s + x, p, hash, grow) == LoadBody(s, p, hash, grow)
  {
    hide LoadTables, ReadUint;
    ReadUintExtends(s, p, 4, x);
    var n := ReadUint(s, p, 4);
    TablesExtend(s, n.pos, n.value, [], hash, grow, x);
  }

  lemma {:induction false} AuthExtends(s: string, p: nat, tables: seq<Table>, x: string)
    ensures LoadAuth(s, p, tables).code == 0 ==> LoadAuth(s + x, p, tables) == LoadAuth(s, p, tables)
    ensures LoadAuth(s, p, tables).keys <= LoadAuth(s + x, p, tables).keys
  {
    hide LoadKeys, ReadUint;
    if ReadUint(s, p, 4).Got? {
      ReadUintExtends(s, p, 4, x);
      var n := ReadUint(s, p, 4);
      KeysExtend(s, n.pos, n.value, [], x);
    }
  }

  /**
   * For every file, accepted or not: bytes appended after an accepted file do not change
   * what is loaded, and cutting a file never invents keys.
   */
  lemma {:induction false} LoadExtends(s: string, hash: int -> nat, grow: nat -> nat -> bool, x: string)
    ensures Load(s, hash, grow).code == 0 ==> Load(s + x, hash, grow) == Load(s, hash, grow)
    ensures Load(s, hash, grow).keys <= Load(s + x, hash, grow).keys
  {
    hide LoadBody, LoadAuth, ReadUint, Take;
    if Take(s, 0, |MAGIC|).Got? {
      TakeExtends(s, 0, |MAGIC|, x);
      if ReadUint(s, 7, 4).Got? {
        ReadUintExtends(s, 7, 4, x);
        if LoadBody(s, 11, hash, grow).Got? {
          BodyExtends(s, 11, hash, grow, x);
          var r := LoadBody(s, 11, hash, grow);
          AuthExtends(s, r.pos, r.value, x);
        }
      }
    }
  }

  /** A load either succeeds within the file or fails with no tables. */
  lemma {:induction false} LoadOutcomes(s: string, hash: int -> nat, grow: nat -> nat -> bool)
    ensures var l := Load(s, hash, grow);
            (l.code == 0 && l.used <= |s|) || (l.code == -1 && l.tables == [])
  {
    hide LoadBody, LoadKeys, ReadUint, Take;
  }

  /** A file of another version loads as an empty store; a file that does not start with the mark is rejected. */
  lemma {:induction false} OtherFiles(version: nat, rest: string, other: string, hash: int -> nat, grow: nat -> nat -> bool)
    requires version != 4 && version < 0x1_0000_0000
    requires |other| < 7 || other[..7] != "PDBSNAP"
    ensures var l := Load("PDBSNAP" + (Le(version, 4) + rest), hash, grow);
            l.code == 0 && l.tables == [] && l.keys == []
    ensures var l := Load(other, hash, grow); l.code == -1 && l.tables == [] && l.keys == []
  {
    hide LoadBody, LoadAuth, ReadUint, HasAt, Le;
    var s := "PDBSNAP" + (Le(version, 4) + rest);
    assert s + [] == s;
    HasAtStart(s, []);
    HasAtSplit(s, 0, "PDBSNAP", Le(version, 4) + rest);
    HasAtSplit(s, 7, Le(version, 4), rest);
    TakeAt(s, 0, "PDBSNAP");
    Widths();
    ReadUintAt(s, 7, version, 4);
    if |other| >= 7 {
      assert other[0..0 + 7] == other[..7];
    }
  }

  /** Counts out of range are refused: arrays of more than 1024 elements, more than 64 keys. */
  lemma {:induction false} BadCounts(s: string, p: nat, n: nat, k: Kind, tables: seq<Table>)
    requires HasAt(s, p, Le(n, 4)) && n < 0x1_0000_0000
    ensures n > 1024 ==> DecodeCell(s, p, Array(k)) == Fail
    ensures n > 64 ==> LoadAuth(s, p, tables) == Loaded(-1, [], [], 0)
  {
    hide HasAt, Le, ReadUint, DecodeScalars, LoadKeys;
    Widths();
    ReadUintAt(s, p, n, 4);
  }

  /** Every strict prefix of a saved snapshot is rejected with no tables left, and the keys a prefix of the saved ones. */
  lemma {:induction false} StrictPrefixRejected(
      tables: seq<Table>, keys: seq<AuthKey>, n: nat, hash: int -> nat, grow: nat -> nat -> bool)
    requires StoreOk(tables, keys) && AllSound(tables) && n < |Save(tables, keys)|
    ensures var l := Load(Save(tables, keys)[..n], hash, grow);
            l.code == -1 && l.tables == [] && l.keys <= keys
  {
    hide Save, Load, Restores, StoreOk, AllSound;
    var s := Save(tables, keys);
    RoundTrip(tables, keys, [], hash, grow);
    assert s + [] == s;
    assert s[..n] + s[n..] == s;
    LoadExtends(s[..n], hash, grow, s[n..]);
    LoadOutcomes(s[..n], hash, grow);
  }

  // ---- Two cycles ----

  lemma {:induction false} RestoredStorable(t: Table, t': Table)
    requires Storable(t) && Restores(t, t')
    ensures Storable(t')
  {
    hide Sound;
  }

  lemma {:induction false} RestoresTwice(t: Table, t1: Table, t2: Table)
    requires Restores(t, t1) && Restores(t1, t2)
    ensures Restores(t, t2)
  {
    var m := t.rows.Contents();
    NormalTwice(m);
    assert t1.rows.Contents().Keys == m.Keys;
  }

  lemma {:induction false} NormalTwice(m: map<int, Row>)
    ensures NormalMap(NormalMap(m)) == NormalMap(m)
  {
    forall k | k in m
      ensures NormalRow(NormalRow(m[k])) == NormalRow(m[k])
    {
      assert NormalCells(NormalCells(m[k].values)) == NormalCells(m[k].values);
    }
  }

  /** What a load restored can itself be saved. */
  lemma {:induction false} RestoredStore(ts: seq<Table>, out: seq<Table>, keys: seq<AuthKey>)
    requires StoreOk(ts, keys) && |out| == |ts|
    requires forall i :: 0 <= i < |ts| ==> Restores(ts[i], out[|ts| - 1 - i])
    ensures StoreOk(out, keys)
  {
    hide Restores, Storable, KeyOk;
    forall j | 0 <= j < |out|
      ensures Storable(out[j]) && out[j].name == ts[|ts| - 1 - j].name
    {
      var i := |ts| - 1 - j;
      RestoredStorable(ts[i], out[j]);
      RestoredName(ts[i], out[j]);
    }
  }

  lemma {:induction false} RestoredName(t: Table, t': Table)
    requires Restores(t, t')
    ensures t'.name == t.name
  {
    hide Sound;
  }

  /** Two save/load cycles restore every table in its original place. */
  lemma {:induction false} TwoCycles(
      tables: seq<Table>, keys: seq<AuthKey>, hash: int -> nat, grow: nat -> nat -> bool, again: nat -> nat -> bool)
    requires StoreOk(tables, keys) && AllSound(tables)
    ensures var l1 := Load(Save(tables, keys), hash, grow);
            && AllSound(l1.tables)
            && var l2 := Load(Save(l1.tables, l1.keys), hash, again);
               && l2.code == 0 && l2.keys == keys && |l2.tables| == |tables|
               && forall i :: 0 <= i < |tables| ==> Restores(tables[i], l2.tables[i])
  {
    hide Save, Load, Restores, StoreOk, AllSound;
    RoundTrip(tables, keys, [], hash, grow);
    assert Save(tables, keys) + [] == Save(tables, keys);
    var l1 := Load(Save(tables, keys), hash, grow);
    RestoredStore(tables, l1.tables, keys);
    StoreSound(l1.tables, keys);
    RoundTrip(l1.tables, keys, [], hash, again);
    assert Save(l1.tables, keys) + [] == Save(l1.tables, keys);
    var l2 := Load(Save(l1.tables, keys), hash, again);
    forall i | 0 <= i < |tables|
      ensures Restores(tables[i], l2.tables[i])
    {
      var j := |tables| - 1 - i;
      assert Restores(tables[i], l1.tables[j]);
      assert Restores(l1.tables[j], l2.tables[|tables| - 1 - j]);
      RestoresTwice(tables[i], l1.tables[j], l2.tables[i]);
    }
  }
}
