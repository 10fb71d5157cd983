/** One table as the server holds it: counters, rows and indexes updated in place. */
module Database {
  import opened Values
  import opened RowMap
  import opened HashMap
  import opened Tables
  import opened TableRuns
  import opened Searches
  import FieldIndex

  /** Walks an index chain to the entry equal to the value, or to the end. */
  method FindIndexEntry(chain: seq<FieldIndex.Entry>, v: Data, k: Kind) returns (p: nat)
    ensures p == FieldIndex.EntryAt(chain, v, k)
  {
    p := 0;
    while p < |chain|
      invariant 0 <= p <= |chain|
      invariant p + FieldIndex.EntryAt(chain[p..], v, k) == FieldIndex.EntryAt(chain, v, k)
    {
      if DataValueEquals(chain[p].value, v, k) {
        return;
      }
      p := p + 1;
    }
  }

  /** Appends a key to an entry unless it is already there. */
  method AddKeyToEntry(e: FieldIndex.Entry, key: int) returns (e': FieldIndex.Entry)
    ensures e' == FieldIndex.AddKey(e, key)
  {
    var i := 0;
    while i < |e.keys|
      invariant 0 <= i <= |e.keys| && key !in e.keys[..i]
    {
      if e.keys[i] == key {
        return e;
      }
      i := i + 1;
    }
    return e.(keys := e.keys + [key]);
  }

  /** Files one row: finds or creates the entry of its value, then adds the key. */
  method FileRow(ib: FieldIndex.Buckets, value: Data, key: int, k: Kind) returns (ib': FieldIndex.Buckets)
    requires |ib| == INDEX_BUCKETS
    ensures ib' == FieldIndex.File(ib, value, key, k)
  {
    var bucket := IndexBucket(value, k);
    var chain := ib[bucket];
    var p := FindIndexEntry(chain, value, k);
    if p == |chain| {
      chain := [FieldIndex.Entry(value, [])] + chain;
      p := 0;
    }
    var entry := AddKeyToEntry(chain[p], key);
    assert p == 0 ==> chain[0 := entry] == [entry] + chain[1..];
    assert p < |ib[bucket]| || chain[1..] == ib[bucket];
    return ib[bucket := chain[p := entry]];
  }

  /** Reads every row through the iterator and files it in fresh buckets. */
  method BuildIndexBuckets(buckets: seq<Chain>, f: nat, k: Kind) returns (ib: FieldIndex.Buckets)
    requires FieldIndex.AllIndexable(Flatten(buckets), f, k)
    ensures ib == FieldIndex.Build(Flatten(buckets), f, k)
  {
    ghost var order := Flatten(buckets);
    ib := seq(INDEX_BUCKETS, _ => []);
    var it := new RowIterator(buckets);
    var row := it.Next(buckets);
    ghost var done := 0;
    while row.Some?
      invariant it.HandedOut(buckets, row, done) && |ib| == INDEX_BUCKETS
      invariant FieldIndex.FileAll(ib, order[done..], f, k) == FieldIndex.Build(order, f, k)
      decreases |order| - done
    {
      assert FieldIndex.Indexable(order[done], f, k);
      assert order[done..][1..] == order[done + 1..];
      ib := FileRow(ib, row.value.values[f], row.value.values[0].i, k);
      row := it.Next(buckets);
      done := done + 1;
    }
  }

  lemma {:induction false} ScanStep(order: Chain, done: nat, rows: seq<Row>, f: nat, v: Data, ty: FieldType)
    requires done < |order| && f < |order[done].row.values|
    ensures var hit := if CompareValues(order[done].row.values[f], v, ty) then [order[done].row] else [];
            (rows + hit) + Scan(order[done + 1..], f, v, ty) == rows + Scan(order[done..], f, v, ty)
  {
    var hit := if CompareValues(order[done].row.values[f], v, ty) then [order[done].row] else [];
    assert order[done..][0] == order[done] && order[done..][1..] == order[done + 1..];
    ConcatAssociates(rows, hit, Scan(order[done + 1..], f, v, ty));
  }

  lemma {:induction false} RowsOfStep(m: RowMap, keys: seq<int>, i: nat, rows: seq<Row>)
    requires |m.buckets| > 0 && i < |keys|
    ensures var hit := match m.Find(keys[i]) case Some(row) => [row] case None => [];
            (rows + hit) + RowsOf(m, keys[i + 1..]) == rows + RowsOf(m, keys[i..])
  {
    var hit := match m.Find(keys[i]) case Some(row) => [row] case None => [];
    assert keys[i..][0] == keys[i] && keys[i..][1..] == keys[i + 1..];
    ConcatAssociates(rows, hit, RowsOf(m, keys[i + 1..]));
  }

  /** The full scan through the iterator. */
  method ScanBuckets(buckets: seq<Chain>, f: nat, v: Data, ty: FieldType) returns (rows: seq<Row>)
    requires forall i :: 0 <= i < |Flatten(buckets)| ==> f < |Flatten(buckets)[i].row.values|
    ensures rows == Scan(Flatten(buckets), f, v, ty) && |rows| <= |Flatten(buckets)|
  {
    hide Flatten, CompareValues;
    ghost var order := Flatten(buckets);
    ghost var total := Scan(order, f, v, ty);
    rows := [];
    var it := new RowIterator(buckets);
    var row := it.Next(buckets);
    ghost var done := 0;
    while row.Some?
      invariant it.HandedOut(buckets, row, done) && |rows| <= done
      invariant rows + Scan(order[done..], f, v, ty) == total
      decreases |order| - done
    {
      ScanStep(order, done, rows, f, v, ty);
      if CompareValues(row.value.values[f], v, ty) {
        rows := rows + [row.value];
      } else {
        assert rows + [] == rows;
      }
      row := it.Next(buckets);
      done := done + 1;
    }
    assert order[done..] == [];
  }

  /** All rows through the iterator. */
  method CollectBuckets(buckets: seq<Chain>) returns (rows: seq<Row>)
    ensures |rows| == |Flatten(buckets)|
    ensures forall i :: 0 <= i < |rows| ==> rows[i] == Flatten(buckets)[i].row
  {
    rows := [];
    var it := new RowIterator(buckets);
    var row := it.Next(buckets);
    while row.Some?
      invariant it.HandedOut(buckets, row, |rows|)
      invariant forall i :: 0 <= i < |rows| ==> rows[i] == Flatten(buckets)[i].row
      decreases |Flatten(buckets)| - |rows|
    {
      rows := rows + [row.value];
      row := it.Next(buckets);
    }
  }

  /** The rows of a list of keys, looked up one by one. */
  method LookUpAll(rowMap: RowHashMap, keys: seq<int>) returns (rows: seq<Row>)
    requires rowMap.Valid()
    ensures rows == RowsOf(rowMap.Model(), keys)
  {
    ghost var total := RowsOf(rowMap.Model(), keys);
    rows := [];
    var i := 0;
    while i < |keys|
      invariant 0 <= i <= |keys|
      invariant rows + RowsOf(rowMap.Model(), keys[i..]) == total
    {
      var found := rowMap.Find(keys[i]);
      RowsOfStep(rowMap.Model(), keys, i, rows);
      if found.Some? {
        rows := rows + [found.value];
      } else {
        assert rows + [] == rows;
      }
      i := i + 1;
    }
    assert keys[i..] == [];
  }

  /** The field loop of UP on a row's cells: stops at an append to a full array. */
  method UpdateFields(fields: seq<Field>, row: seq<Data>, values: seq<Data>, ignore: seq<bool>)
    returns (cells: seq<Data>, done: bool)
    requires |fields| == |row| == |values| + 1 == |ignore| + 1
    ensures (cells, done) == UpdateCells(fields, row, values, ignore, 0)
  {
    cells := row;
    var i := 0;
    while i < |values|
      invariant 0 <= i <= |values| && |cells| == |fields|
      invariant UpdateCells(fields, cells, values, ignore, i) == UpdateCells(fields, row, values, ignore, 0)
    {
      if !ignore[i] {
        if fields[i + 1].ty.Array? && values[i].AppendV? {
          var existing := Elements(cells[i + 1]);
          if |existing| >= MAX_ARRAY_LENGTH {
            return cells, false;
          }
          cells := cells[i + 1 := ArrayV(existing + [values[i].elem])];
        } else {
          cells := cells[i + 1 := values[i]];
        }
      } else {
        assert cells[i + 1 := cells[i + 1]] == cells;
      }
      i := i + 1;
    }
    return cells, true;
  }

  class Db {
    const name: string
    const fields: seq<Field>
    const rowMap: RowHashMap
    var rowsCount: int
    var nextKey: int
    var indexes: seq<Index>

    ghost function Model(): Table
      reads this, rowMap
    {
      Table(name, fields, rowMap.Model(), rowsCount, nextKey, indexes)
    }

    ghost predicate Valid()
      reads this, rowMap
    {
      Sound(Model())
    }

    constructor (hash: int -> nat, name: string, userFields: seq<Field>)
      requires |userFields| >= 1
      ensures Valid() && fresh(rowMap) && Model() == Create(hash, name, userFields)
    {
      this.name := name;
      fields := [KEY_FIELD] + userFields;
      rowMap := new RowHashMap(hash, INITIAL_ROW_CAPACITY);
      rowsCount, nextKey := 0, 1;
      indexes := seq(|userFields| + 1, _ => Disabled);
      new;
      CreateSound(hash, name, userFields);
    }

    /** Rebuilds one index in place; on an allocation failure it is left cleared. */
    method RebuildSingleIndex(f: nat, allocOk: bool) returns (code: int)
      requires rowMap.Valid() && f < |fields| == |indexes| && fields[f].ty.Scalar?
      requires FieldIndex.AllIndexable(Flatten(rowMap.buckets), f, fields[f].ty.kind)
      modifies this`indexes
      ensures code == if allocOk then 0 else -1
      ensures indexes == old(indexes)[f := if allocOk then BuildIndex(fields, Flatten(rowMap.buckets), f) else Disabled]
    {
      indexes := indexes[f := Disabled];
      if !allocOk {
        return -1;
      }
      var ib := BuildIndexBuckets(rowMap.buckets, f, fields[f].ty.kind);
      indexes := indexes[f := Enabled(ib)];
      return 0;
    }

    /** Rebuilds every enabled index; one whose rebuild fails is disabled. */
    method RebuildEnabledIndexes(lost: set<nat>)
      requires rowMap.Valid() && |indexes| == |fields|
      requires forall f :: 0 <= f < |fields| && indexes[f].Enabled? ==>
                 fields[f].ty.Scalar? && FieldIndex.AllIndexable(Flatten(rowMap.buckets), f, fields[f].ty.kind)
      modifies this`indexes
      ensures Model() == RebuildEnabled(old(Model()), lost)
    {
      ghost var target := RebuildEnabled(Model(), lost).indexes;
      ghost var before := indexes;
      var i := 0;
      while i < |fields|
        invariant 0 <= i <= |fields| && |indexes| == |fields|
        invariant forall f :: 0 <= f < i ==> indexes[f] == target[f]
        invariant forall f :: i <= f < |fields| ==> indexes[f] == before[f]
      {
        if indexes[i].Enabled? {
          var code := RebuildSingleIndex(i, i !in lost);
        }
        i := i + 1;
      }
    }

    lemma {:induction false} IndexesBuildable()
      requires RowsSound(Model()) && SlotsSound(Model())
      ensures forall f :: 0 <= f < |fields| && fields[f].ty.Scalar? ==>
                FieldIndex.AllIndexable(Flatten(rowMap.buckets), f, fields[f].ty.kind)
    {
      RowsOkByKey(fields, rowMap.Model());
      forall f | 0 <= f < |fields| && fields[f].ty.Scalar?
        ensures FieldIndex.AllIndexable(Flatten(rowMap.buckets), f, fields[f].ty.kind)
      {
        RowsIndexable(fields, Order(Model()), f);
      }
    }

    /** ADD. */
    method AddRow(key: int, values: seq<Data>, now: int, growOk: bool, lost: set<nat>) returns (code: int)
      requires Valid() && Admissible(Model(), Add(key, values, now, growOk, lost))
      modifies this, rowMap
      ensures Valid()
      ensures (Model(), code) == Tables.AddRow(old(Model()), key, values, now, growOk, lost)
    {
      ghost var t := Model();
      assert Sound(Tables.AddRow(t, key, values, now, growOk, lost).0) by {
        AddEffect(t, key, values, now, growOk, lost);
      }
      FindRefines(t.rows, ActualKey(t, key));
      if |values| != |fields| - 1 {
        return -2;
      }
      if rowsCount >= MAX_ROW_CAPACITY {
        return -3;
      }
      var actualKey;
      if key < 0 {
        actualKey := nextKey;
        nextKey := nextKey + 1;
      } else {
        actualKey := key;
        if actualKey >= nextKey {
          nextKey := actualKey + 1;
        }
      }
      var existing := rowMap.Find(actualKey);
      if existing.Some? {
        return -5;
      }
      var row := Row([IntV(actualKey)] + values, now, now);
      AddedRowOk(t, key, values, now);
      Store(actualKey, row, growOk, lost, t, key);
      return 0;
    }

    /** The accepting tail of ADD: link the row, count it, rebuild the indexes. */
    method Store(actualKey: int, row: Row, growOk: bool, lost: set<nat>, ghost t: Table, ghost key: int)
      requires Sound(t) && Model() == Counted(t, key) && t.rowsCount < MAX_ROW_CAPACITY
      requires actualKey == ActualKey(t, key) < TWO_31 - 1 && actualKey !in t.rows.Contents()
      requires RowOk(fields, Node(actualKey, row))
      modifies this, rowMap
      ensures Model() == RebuildEnabled(Inserted(t, key, row, growOk), lost)
    {
      rowMap.Insert(actualKey, row, rowsCount + 1, growOk);
      rowsCount := rowsCount + 1;
      assert Model() == Inserted(t, key, row, growOk);
      SoundSplits(t);
      InsertKeepsSound(t, key, row, growOk);
      IndexesBuildable();
      RebuildEnabledIndexes(lost);
    }

    /** DEL. */
    method DeleteRow(key: int, lost: set<nat>) returns (code: int)
      requires Valid()
      modifies this, rowMap
      ensures Valid()
      ensures (Model(), code) == Tables.DeleteRow(old(Model()), key, lost)
    {
      ghost var t := Model();
      assert Sound(Tables.DeleteRow(t, key, lost).0) by {
        DeleteEffect(t, key, lost);
      }
      FindRefines(t.rows, key);
      var removed := rowMap.Remove(key);
      if removed.None? {
        RemoveAbsent(t.rows, key);
        return -2;
      }
      rowsCount := rowsCount - 1;
      assert Model() == t.(rows := t.rows.Remove(key), rowsCount := t.rowsCount - 1);
      assert RowsSound(Model()) && SlotsSound(Model()) by {
        SoundSplits(t);
        RemoveKeepsSound(t, key);
      }
      IndexesBuildable();
      RebuildEnabledIndexes(lost);
      return 0;
    }

    /** UP: writes field after field into the stored row; an append to a full array stops it there. */
    method UpdateRow(key: int, values: seq<Data>, ignore: seq<bool>, now: int, lost: set<nat>) returns (code: int)
      requires Valid() && Admissible(Model(), Up(key, values, ignore, now, lost))
      modifies this, rowMap
      ensures Valid()
      ensures (Model(), code) == Tables.UpdateRow(old(Model()), key, values, ignore, now, lost)
    {
      ghost var t := Model();
      assert Sound(Tables.UpdateRow(t, key, values, ignore, now, lost).0) by {
        UpStepKeeps(t, key, values, ignore, now, lost);
      }
      if |values| != |fields| - 1 {
        return -2;
      }
      var found := rowMap.Find(key);
      if found.None? {
        return -3;
      }
      var row := found.value;
      SoundSplits(t);
      assert RowOk(fields, Node(key, row));
      var cells, done := UpdateFields(fields, row.values, values, ignore);
      if !done {
        rowMap.Put(key, row.(values := cells));
        return -5;
      }
      UpdateCellsForm(fields, row.values, values, ignore, 0);
      UpdatedRowOk(t, key, row, values, ignore, row.updated);
      FinishUpdate(key, row.(values := cells), now, lost, t);
      return 0;
    }

    /** The tail of a finished UP: the row is stored, indexes rebuilt, then the row is stamped. */
    method FinishUpdate(key: int, row: Row, now: int, lost: set<nat>, ghost t: Table)
      requires Sound(t) && Model() == t && key in t.rows.Contents()
      requires RowOk(fields, Node(key, row))
      modifies this, rowMap
      ensures var t2 := RebuildEnabled(t.(rows := t.rows.Put(key, row)), lost);
              Model() == t2.(rows := t2.rows.Put(key, row.(updated := now)))
    {
      rowMap.Put(key, row);
      SoundSplits(t);
      PutKeepsSound(t, key, row);
      assert Model() == t.(rows := t.rows.Put(key, row));
      IndexesBuildable();
      RebuildEnabledIndexes(lost);
      rowMap.Put(key, row.(updated := now));
    }

    /** CREATE_INDEX on a column number. */
    method CreateIndex(f: int, allocOk: bool) returns (code: int)
      requires Valid()
      modifies this`indexes
      ensures Valid()
      ensures (Model(), code) == Tables.CreateIndex(old(Model()), f, allocOk)
    {
      CreateIndexSound(Model(), f, allocOk);
      if f < 0 || f >= |fields| || fields[f].ty.Array? {
        return -1;
      }
      if indexes[f].Enabled? {
        return -2;
      }
      SoundSplits(Model());
      IndexesBuildable();
      code := RebuildSingleIndex(f, allocOk);
      if code != 0 {
        assert indexes == old(indexes);
        return -3;
      }
    }

    /** The rows of an index entry, looked up key by key. */
    method IndexCollectRows(f: nat, v: Data) returns (rows: seq<Row>)
      requires Valid() && f < |fields| && indexes[f].Enabled?
      ensures rows == RowsOf(rowMap.Model(), FieldIndex.KeysOf(indexes[f].buckets, v, fields[f].ty.kind))
    {
      var k := fields[f].ty.kind;
      var chain := indexes[f].buckets[IndexBucket(v, k)];
      var p := FindIndexEntry(chain, v, k);
      if p == |chain| {
        return [];
      }
      rows := LookUpAll(rowMap, chain[p].keys);
    }

    /** SEARCH: through the index when there is one; a scan result never exceeds the counted rows. */
    method Search(f: nat, v: Data) returns (rows: seq<Row>)
      requires Valid() && f < |fields|
      ensures rows == Tables.Search(Model(), f, v)
      ensures indexes[f].Disabled? ==> |rows| <= rowsCount
    {
      if indexes[f].Enabled? {
        rows := IndexCollectRows(f, v);
      } else {
        IterationOrder(rowMap.Model());
        assert forall i :: 0 <= i < |Order(Model())| ==> RowOk(fields, Order(Model())[i]);
        rows := ScanBuckets(rowMap.buckets, f, v, fields[f].ty);
      }
    }

    /** GET_ALL's rows: exactly as many as the table counts, in iteration order. */
    method CollectRows() returns (rows: seq<Row>)
      requires Valid()
      ensures |rows| == rowsCount == |Order(Model())|
      ensures forall i :: 0 <= i < |rows| ==> rows[i] == Order(Model())[i].row
    {
      IterationOrder(rowMap.Model());
      rows := CollectBuckets(rowMap.buckets);
    }
  }
}
