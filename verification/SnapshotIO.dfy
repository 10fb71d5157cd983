/** Saving and loading as the server runs them: an advancing file position and nested loops. */
module SnapshotIO {
  import opened Values
  import opened RowMap
  import opened Tables
  import opened Bytes
  import opened Spans
  import opened Snapshot
  import opened HashMap

  // ---- Saving ----

  method WriteScalars(ds: seq<Data>, k: Kind) returns (out: string)
    ensures out == EncodeScalars(ds, k)
  {
    hide EncodeScalar;
    ghost var total := EncodeScalars(ds, k);
    out := [];
    var i := 0;
    while i < |ds|
      invariant 0 <= i <= |ds| && out + EncodeScalars(ds[i..], k) == total
    {
      ConcatAssociates(out, EncodeScalar(ds[i], k), EncodeScalars(ds[i + 1..], k));
      assert ds[i..][1..] == ds[i + 1..];
      out := out + EncodeScalar(ds[i], k);
      i := i + 1;
    }
    assert out + [] == out;
  }

  /** The cells of a row, column by column; array cells write their length first. */
  method WriteRowValues(fields: seq<Field>, cells: seq<Data>) returns (out: string)
    requires |fields| == |cells|
    ensures out == EncodeCells(fields, cells)
  {
    hide EncodeScalar;
    ghost var total := EncodeCells(fields, cells);
    out := [];
    var i := 0;
    while i < |fields|
      invariant 0 <= i <= |fields| && out + EncodeCells(fields[i..], cells[i..]) == total
    {
      var cell;
      if fields[i].ty.Scalar? {
        cell := EncodeScalar(cells[i], fields[i].ty.kind);
      } else {
        var elems := WriteScalars(Elements(cells[i]), fields[i].ty.kind);
        cell := Le(|Elements(cells[i])|, 4) + elems;
      }
      ConcatAssociates(out, cell, EncodeCells(fields[i + 1..], cells[i + 1..]));
      assert fields[i..][1..] == fields[i + 1..] && cells[i..][1..] == cells[i + 1..];
      out := out + cell;
      i := i + 1;
    }
    assert out + [] == out;
  }

  method WriteFields(fields: seq<Field>) returns (out: string)
    ensures out == EncodeFields(fields)
  {
    hide EncodeField;
    ghost var total := EncodeFields(fields);
    out := [];
    var i := 0;
    while i < |fields|
      invariant 0 <= i <= |fields| && out + EncodeFields(fields[i..]) == total
    {
      ConcatAssociates(out, EncodeField(fields[i]), EncodeFields(fields[i + 1..]));
      assert fields[i..][1..] == fields[i + 1..];
      out := out + EncodeField(fields[i]);
      i := i + 1;
    }
    assert out + [] == out;
  }

  /** The rows as the iterator hands them out. */
  method WriteRows(fields: seq<Field>, buckets: seq<Chain>) returns (out: string)
    requires RowsOk(fields, Flatten(buckets))
    ensures out == EncodeRows(fields, Flatten(buckets))
  {
    hide EncodeRow, RowOk, Flatten;
    ghost var order := Flatten(buckets);
    ghost var total := EncodeRows(fields, order);
    out := [];
    var it := new RowIterator(buckets);
    var row := it.Next(buckets);
    ghost var done := 0;
    while row.Some?
      invariant it.HandedOut(buckets, row, done) && 0 <= done <= |order|
      invariant RowsOk(fields, order[done..]) && out + EncodeRows(fields, order[done..]) == total
      decreases |order| - done
    {
      RowsStep(fields, order, done);
      var text := WriteRow(fields, row.value, order[done]);
      ConcatAssociates(out, text, EncodeRows(fields, order[done + 1..]));
      out := out + text;
      row := it.Next(buckets);
      done := done + 1;
    }
    assert order[done..] == [] && out + [] == out;
  }

  lemma {:induction false} RowsStep(fields: seq<Field>, order: Chain, done: nat)
    requires done < |order| && RowsOk(fields, order[done..])
    ensures RowOk(fields, order[done]) && RowsOk(fields, order[done + 1..])
    ensures EncodeRows(fields, order[done..]) == EncodeRow(fields, order[done]) + EncodeRows(fields, order[done + 1..])
  {
    hide RowOk, EncodeRow;
    assert order[done..][0] == order[done] && order[done..][1..] == order[done + 1..];
  }

  method WriteRow(fields: seq<Field>, row: Row, ghost n: Node) returns (out: string)
    requires RowOk(fields, n) && n.row == row
    ensures out == EncodeRow(fields, n)
  {
    var cells := WriteRowValues(fields[1..], row.values[1..]);
    out := LeSigned(row.values[0].i, 4) + (cells + (LeSigned(row.created, 8) + LeSigned(row.updated, 8)));
  }

  method WriteTable(t: Table) returns (out: string)
    requires Sound(t)
    ensures out == EncodeTable(t)
  {
    hide EncodeFields, EncodeRows;
    var fields := WriteFields(t.fields[1..]);
    var rows := WriteRows(t.fields, t.rows.buckets);
    out := Le(|t.name|, 2) + (t.name + (Le(|t.fields| - 1, 4) + (fields + (Le(t.rowsCount, 4) + rows))));
  }

  method SaveAll(tables: seq<Table>, keys: seq<AuthKey>) returns (file: string)
    requires AllSound(tables)
    ensures file == Save(tables, keys)
  {
    hide Sound, EncodeTable, EncodeKey;
    ghost var total := EncodeTables(tables);
    var body := [];
    var i := 0;
    while i < |tables|
      invariant 0 <= i <= |tables| && AllSound(tables[i..]) && body + EncodeTables(tables[i..]) == total
    {
      var table := WriteTable(tables[i]);
      ConcatAssociates(body, table, EncodeTables(tables[i + 1..]));
      assert tables[i..][1..] == tables[i + 1..];
      body := body + table;
      i := i + 1;
    }
    assert body + [] == body;
    var auth := WriteKeys(keys);
    file := MAGIC + (Le(VERSION, 4) + (Le(|tables|, 4) + (body + (Le(|keys|, 4) + auth))));
  }

  method WriteKeys(keys: seq<AuthKey>) returns (out: string)
    ensures out == EncodeKeys(keys)
  {
    hide EncodeKey;
    ghost var total := EncodeKeys(keys);
    out := [];
    var i := 0;
    while i < |keys|
      invariant 0 <= i <= |keys| && out + EncodeKeys(keys[i..]) == total
    {
      ConcatAssociates(out, EncodeKey(keys[i]), EncodeKeys(keys[i + 1..]));
      assert keys[i..][1..] == keys[i + 1..];
      out := out + EncodeKey(keys[i]);
      i := i + 1;
    }
    assert out + [] == out;
  }

  // ---- Loading ----

  /** An open file: its bytes and the current position. */
  class SnapshotReader {
    const bytes: string
    var pos: nat

    constructor (bytes: string)
      ensures this.bytes == bytes && pos == 0
    {
      this.bytes := bytes;
      pos := 0;
    }

    /** The last read gave this result: its value if it succeeded, with the position moved past it. */
    ghost predicate Gave<T>(r: Read<T>, ok: bool, value: T)
      reads this
    {
      ok == r.Got? && (ok ==> value == r.value && pos == r.pos)
    }

    method Fread(n: nat) returns (ok: bool, data: string)
      modifies this
      ensures Gave(Take(bytes, old(pos), n), ok, data)
    {
      if pos + n > |bytes| {
        return false, [];
      }
      data := bytes[pos..pos + n];
      pos := pos + n;
      return true, data;
    }

    method FreadUint(w: nat) returns (ok: bool, n: nat)
      modifies this
      ensures Gave(ReadUint(bytes, old(pos), w), ok, n)
    {
      var data;
      ok, data := Fread(w);
      n := FromLe(data);
    }

    method FreadInt(w: nat) returns (ok: bool, i: int)
      modifies this
      ensures Gave(ReadInt(bytes, old(pos), w), ok, i)
    {
      var n;
      ok, n := FreadUint(w);
      i := Signed(n, Power256(w));
    }

    method FreadScalar(k: Kind) returns (ok: bool, d: Data)
      modifies this
      ensures Gave(DecodeScalar(bytes, old(pos), k), ok, d)
    {
      d := NullStr;
      match k {
        case KInt =>
          var i;
          ok, i := FreadInt(4);
          d := IntV(i);
        case KDouble =>
          var n;
          ok, n := FreadUint(8);
          d := DoubleV(n);
        case KBool =>
          var n;
          ok, n := FreadUint(1);
          d := BoolV(n != 0);
        case KString =>
          var n;
          ok, n := FreadUint(4);
          if ok && n != NULL_STRING {
            var data;
            ok, data := Fread(n);
            d := StrV(CString(data));
          }
      }
    }

    method FreadCell(ty: FieldType) returns (ok: bool, d: Data)
      modifies this
      ensures Gave(DecodeCell(bytes, old(pos), ty), ok, d)
    {
      hide DecodeScalar;
      d := NullStr;
      if ty.Scalar? {
        ok, d := FreadScalar(ty.kind);
        return;
      }
      var n;
      ok, n := FreadUint(4);
      if !ok || n > MAX_ARRAY_LENGTH {
        return false, d;
      }
      ghost var target := DecodeScalars(bytes, pos, ty.kind, n, []);
      var elems := [];
      var i := 0;
      while i < n
        invariant 0 <= i <= n
        invariant DecodeScalars(bytes, pos, ty.kind, n - i, elems) == target
      {
        var elem;
        ok, elem := FreadScalar(ty.kind);
        if !ok {
          return;
        }
        elems := elems + [elem];
        i := i + 1;
      }
      return true, ArrayV(elems);
    }

    method FreadRowValues(fields: seq<Field>) returns (ok: bool, cells: seq<Data>)
      modifies this
      ensures Gave(DecodeCells(bytes, old(pos), fields, []), ok, cells)
    {
      hide DecodeCell;
      ghost var target := DecodeCells(bytes, pos, fields, []);
      cells := [];
      var i := 0;
      while i < |fields|
        invariant 0 <= i <= |fields|
        invariant DecodeCells(bytes, pos, fields[i..], cells) == target
      {
        var cell;
        assert fields[i..][1..] == fields[i + 1..];
        ok, cell := FreadCell(fields[i].ty);
        if !ok {
          return;
        }
        cells := cells + [cell];
        i := i + 1;
      }
      ok := true;
    }

    method FreadName(limit: nat) returns (ok: bool, name: string)
      modifies this
      ensures Gave(DecodeName(bytes, old(pos), limit), ok, name)
    {
      var n, data;
      ok, n := FreadUint(2);
      if !ok || n >= limit {
        return false, [];
      }
      ok, data := Fread(n);
      name := CString(data);
    }

    method FreadFieldDefinitions(n: nat) returns (ok: bool, fields: seq<Field>)
      modifies this
      ensures Gave(DecodeFields(bytes, old(pos), n, []), ok, fields)
    {
      hide DecodeName, ReadUint;
      ghost var target := DecodeFields(bytes, pos, n, []);
      fields := [];
      var i := 0;
      while i < n
        invariant 0 <= i <= n
        invariant DecodeFields(bytes, pos, n - i, fields) == target
      {
        var name, code;
        ok, name := FreadName(MAX_FIELD_NAME_LENGTH);
        if !ok {
          return;
        }
        ok, code := FreadUint(1);
        if !ok || TypeOf(code).None? {
          return false, fields;
        }
        fields := fields + [Field(name, TypeOf(code).value)];
        i := i + 1;
      }
      ok := true;
    }

    method FreadRow(t: Table, growOk: bool) returns (ok: bool, t': Table)
      requires Usable(t)
      modifies this
      ensures Gave(LoadRow(bytes, old(pos), t, growOk), ok, t')
      ensures ok ==> Usable(t')
    {
      hide AddRow, SetTimestamps, DecodeCells, ReadInt;
      t' := t;
      var key, cells, created, updated;
      ok, key := FreadInt(4);
      if !ok {
        return;
      }
      ok, cells := FreadRowValues(t.fields[1..]);
      if !ok {
        return;
      }
      var added := AddRow(t, key, cells, 0, growOk, {});
      if added.1 != 0 {
        return false, t;
      }
      ok, created := FreadInt(8);
      if !ok {
        return;
      }
      ok, updated := FreadInt(8);
      if !ok {
        return;
      }
      t' := SetTimestamps(added.0, key, created, updated);
    }

    method FreadRows(t: Table, n: nat, grow: nat -> bool) returns (ok: bool, t': Table)
      requires Usable(t)
      modifies this
      ensures Gave(LoadRows(bytes, old(pos), t, n, grow), ok, t')
    {
      hide LoadRow;
      ghost var target := LoadRows(bytes, pos, t, n, grow);
      t' := t;
      var left := n;
      while left > 0
        invariant Usable(t') && LoadRows(bytes, pos, t', left, grow) == target
      {
        ok, t' := FreadRow(t', grow(left));
        if !ok {
          return;
        }
        left := left - 1;
      }
      ok := true;
    }

    method FreadTable(tables: seq<Table>, hash: int -> nat, grow: nat -> bool) returns (ok: bool, tables': seq<Table>)
      modifies this
      ensures Gave(LoadTable(bytes, old(pos), tables, hash, grow), ok, tables')
    {
      hide DecodeName, ReadUint, DecodeFields, LoadRows, FindDb;
      tables' := tables;
      var name, n, fields, count, t;
      ok, name := FreadName(MAX_DB_NAME_LENGTH);
      if !ok {
        return;
      }
      ok, n := FreadUint(4);
      if !ok || n == 0 {
        return false, tables;
      }
      ok, fields := FreadFieldDefinitions(n);
      if !ok {
        return;
      }
      t := Create(hash, name, fields);
      if AddDb(tables, t).1 != 0 {
        return false, tables;
      }
      ok, count := FreadUint(4);
      if !ok {
        return;
      }
      ok, t := FreadRows(t, count, grow);
      tables' := [t] + tables;
    }

    /** Loads tables one after another; on a failure the caller clears the storage. */
    method FreadTables(n: nat, hash: int -> nat, grow: nat -> nat -> bool) returns (ok: bool, tables: seq<Table>)
      modifies this
      ensures Gave(LoadTables(bytes, old(pos), n, [], hash, grow), ok, tables)
    {
      hide LoadTable;
      ghost var target := LoadTables(bytes, pos, n, [], hash, grow);
      tables := [];
      var left := n;
      while left > 0
        invariant LoadTables(bytes, pos, left, tables, hash, grow) == target
      {
        ok, tables := FreadTable(tables, hash, grow(left));
        if !ok {
          return;
        }
        left := left - 1;
      }
      ok := true;
    }

    method FreadKey() returns (ok: bool, key: AuthKey)
      modifies this
      ensures Gave(DecodeKey(bytes, old(pos)), ok, key)
    {
      key := AuthKey([], [], 0);
      var n, data, role, hash;
      ok, n := FreadUint(2);
      if !ok || n == 0 || n >= AUTH_KEY_NAME_MAX {
        return false, key;
      }
      ok, data := Fread(n);
      if !ok {
        return;
      }
      ok, role := FreadUint(1);
      if !ok {
        return;
      }
      ok, hash := Fread(HASH_BYTES);
      key := AuthKey(CString(data), hash, role);
    }

    /** Appends keys to the store as they are read; a failure leaves those read so far. */
    method FreadKeys(n: nat) returns (ok: bool, keys: seq<AuthKey>)
      modifies this
      ensures var (end, kept) := LoadKeys(bytes, old(pos), n, []); Gave(end, ok, ()) && keys == kept
    {
      hide DecodeKey;
      ghost var target := LoadKeys(bytes, pos, n, []);
      keys := [];
      var left := n;
      while left > 0
        invariant LoadKeys(bytes, pos, left, keys) == target
      {
        var key;
        ok, key := FreadKey();
        if !ok {
          return;
        }
        keys := keys + [key];
        left := left - 1;
      }
      ok := true;
    }

    /** The whole load into empty storage. */
    method LoadAll(hash: int -> nat, grow: nat -> nat -> bool) returns (loaded: Loaded)
      requires pos == 0
      modifies this
      ensures loaded == Load(bytes, hash, grow)
    {
      hide ReadUint, LoadTables, LoadKeys, Take;
      var ok, magic, version, n, tables, keys;
      ok, magic := Fread(|MAGIC|);
      if !ok || magic != MAGIC {
        return REJECTED;
      }
      ok, version := FreadUint(4);
      if !ok {
        return REJECTED;
      }
      if version != VERSION {
        return Loaded(0, [], [], pos);
      }
      ok, n := FreadUint(4);
      if !ok {
        return REJECTED;
      }
      ok, tables := FreadTables(n, hash, grow);
      if !ok {
        return REJECTED;
      }
      ok, n := FreadUint(4);
      if !ok || n > AUTH_MAX_KEYS {
        return REJECTED;
      }
      ok, keys := FreadKeys(n);
      if !ok {
        return Loaded(-1, [], keys, 0);
      }
      return Loaded(0, tables, keys, pos);
    }
  }
}
