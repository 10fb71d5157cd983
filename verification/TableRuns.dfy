/** What table operations keep, one by one and over whole runs. */
module TableRuns {
  import opened Values
  import opened RowMap
  import opened Tables
  import FieldIndex

  // ---- Bucket counts ----

  lemma {:induction false} DoublingGap(n: nat, p: nat)
    requires DoublingOf16(n) && DoublingOf16(p) && n < p
    ensures 2 * n <= p
  {
    if n > 16 {
      DoublingGap(n / 2, p / 2);
    }
  }

  /** The bucket counts a table goes through. */
  function Doubled(k: nat): (n: nat)
    ensures n >= 16
  {
    if k == 0 then 16 else 2 * Doubled(k - 1)
  }

  lemma {:induction false} DoubledIsDoubling(k: nat)
    ensures DoublingOf16(Doubled(k))
  {
    if k > 0 {
      DoubledIsDoubling(k - 1);
      assert Doubled(k) / 2 == Doubled(k - 1);
    }
  }

  /** A rehash never takes the bucket count past 2^21, because rows are capped at 2^20. */
  lemma {:induction false} GrowthBounded(n: nat, size: nat)
    requires DoublingOf16(n) && n <= 0x20_0000
    requires size <= MAX_ROW_CAPACITY && ShouldRehash(size, n)
    ensures DoublingOf16(2 * n) && 2 * n <= 0x20_0000
  {
    hide Doubled;
    DoubledIsDoubling(17);
    DoubledLast();
    assert (2 * n) / 2 == n;
    if n < 0x20_0000 {
      DoublingGap(n, 0x20_0000);
    }
  }

  lemma {:induction false} DoubledLast()
    ensures Doubled(17) == 0x20_0000
  {
    assert Doubled(8) == 0x1000;
  }

  // ---- Row well-formedness by key ----

  ghost predicate StoredOk(fields: seq<Field>, m: map<int, Row>) {
    forall k :: k in m ==> RowOk(fields, Node(k, m[k]))
  }

  lemma {:induction false} RowsOkByKey(fields: seq<Field>, m: RowMap)
    requires m.Valid()
    ensures RowsOk(fields, Flatten(m.buckets)) <==> StoredOk(fields, m.Contents())
  {
    IterationOrder(m);
    var order := Flatten(m.buckets);
    if StoredOk(fields, m.Contents()) {
      forall i | 0 <= i < |order|
        ensures RowOk(fields, order[i])
      {
        assert order[i] in order;
        assert order[i] == Node(order[i].key, m.Contents()[order[i].key]);
      }
    }
    if RowsOk(fields, order) {
      forall k | k in m.Contents()
        ensures RowOk(fields, Node(k, m.Contents()[k]))
      {
        assert Node(k, m.Contents()[k]) in order;
      }
    }
  }

  // ---- Index rebuilds ----

  /** The parts of soundness that do not speak of indexes. */
  ghost predicate RowsSound(t: Table) {
    && SchemaOk(t.fields)
    && t.rows.Valid()
    && t.rowsCount == |t.rows.Contents()| <= MAX_ROW_CAPACITY
    && 1 <= t.nextKey < TWO_31 && KeysBelow(t.rows.Contents(), t.nextKey)
    && StoredOk(t.fields, t.rows.Contents())
    && DoublingOf16(|t.rows.buckets|) && |t.rows.buckets| <= 0x20_0000
  }

  ghost predicate SlotsSound(t: Table) {
    && |t.indexes| == |t.fields|
    && (forall f :: 0 <= f < |t.indexes| && t.indexes[f].Enabled? ==>
          t.fields[f].ty.Scalar? && |t.indexes[f].buckets| == INDEX_BUCKETS)
  }

  lemma {:induction false} SoundSplits(t: Table)
    ensures Sound(t) <==> RowsSound(t) && SlotsSound(t)
  {
    if t.rows.Valid() {
      RowsOkByKey(t.fields, t.rows);
    }
  }

  /** Whatever state the indexes were in, after a rebuild every enabled one is current. */
  lemma {:induction false} RebuildMakesCurrent(t: Table, lost: set<nat>)
    requires RowsSound(t) && SlotsSound(t)
    ensures RowsSound(RebuildEnabled(t, lost)) && SlotsSound(RebuildEnabled(t, lost))
    ensures Sound(RebuildEnabled(t, lost)) && Current(RebuildEnabled(t, lost))
  {
    var t' := RebuildEnabled(t, lost);
    RowsOkByKey(t.fields, t.rows);
    forall f | 0 <= f < |t.fields| && t.fields[f].ty.Scalar?
      ensures FieldIndex.AllIndexable(Order(t), f, t.fields[f].ty.kind)
    {
      RowsIndexable(t.fields, Order(t), f);
    }
    SoundSplits(t');
    assert Order(t') == Order(t);
  }

  lemma {:induction false} CreateIndexSound(t: Table, f: int, allocOk: bool)
    requires Sound(t)
    ensures Sound(CreateIndex(t, f, allocOk).0)
    ensures Current(t) ==> Current(CreateIndex(t, f, allocOk).0)
    ensures CreateIndex(t, f, allocOk).1 == 0 ==> IndexCurrent(CreateIndex(t, f, allocOk).0, f)
  {
    var t' := CreateIndex(t, f, allocOk).0;
    if CreateIndex(t, f, allocOk).1 == 0 {
      RowsIndexable(t.fields, Order(t), f);
    }
    assert Order(t') == Order(t);
    assert forall g :: 0 <= g < |t.indexes| && g != f ==> t'.indexes[g] == t.indexes[g];
  }

  // ---- ADD ----

  /** ADD extends the key-to-row map by exactly one fresh row, or leaves it alone. */
  lemma {:induction false} AddEffect(t: Table, key: int, values: seq<Data>, now: int, growOk: bool, lost: set<nat>)
    requires Sound(t) && Admissible(t, Add(key, values, now, growOk, lost))
    ensures var (t', code) := AddRow(t, key, values, now, growOk, lost);
            var actual := ActualKey(t, key);
            && Sound(t') && t'.fields == t.fields && t'.name == t.name
            && t'.nextKey >= t.nextKey
            && (code == 0 <==> |values| == |t.fields| - 1 && t.rowsCount < MAX_ROW_CAPACITY && actual !in t.rows.Contents())
            && (code == 0 ==> t'.rows.Contents() == t.rows.Contents()[actual := NewRow(t, key, values, now)])
            && (code == 0 ==> t'.rowsCount == t.rowsCount + 1 && actual < t'.nextKey && Current(t'))
            && (code != 0 ==> t'.rows == t.rows && t'.indexes == t.indexes && t'.rowsCount == t.rowsCount)
            && (code != 0 && Current(t) ==> Current(t'))
  {
    var (t', code) := AddRow(t, key, values, now, growOk, lost);
    FindRefines(t.rows, ActualKey(t, key));
    if code == 0 {
      AddStores(t, key, values, now, growOk, lost);
    } else {
      assert KeysBelow(t.rows.Contents(), t'.nextKey);
      assert Order(t') == Order(t);
    }
  }

  /** The accepting branch of ADD. */
  lemma {:induction false} AddStores(t: Table, key: int, values: seq<Data>, now: int, growOk: bool, lost: set<nat>)
    requires Sound(t) && Admissible(t, Add(key, values, now, growOk, lost))
    requires AddRow(t, key, values, now, growOk, lost).1 == 0 && ActualKey(t, key) !in t.rows.Contents()
    ensures var t' := AddRow(t, key, values, now, growOk, lost).0;
            && Sound(t') && Current(t')
            && t'.rows.Contents() == t.rows.Contents()[ActualKey(t, key) := NewRow(t, key, values, now)]
  {
    SoundSplits(t);
    AddedRowOk(t, key, values, now);
    InsertKeepsSound(t, key, NewRow(t, key, values, now), growOk);
    RebuildMakesCurrent(Inserted(t, key, NewRow(t, key, values, now), growOk), lost);
  }

  lemma {:induction false} AddedRowOk(t: Table, key: int, values: seq<Data>, now: int)
    requires SchemaOk(t.fields) && |values| == |t.fields| - 1 && ValuesTyped(t.fields, values) && IsI64(now)
    requires 0 <= ActualKey(t, key) < TWO_31 - 1
    ensures RowOk(t.fields, Node(ActualKey(t, key), NewRow(t, key, values, now)))
  {
    var cells := [IntV(ActualKey(t, key))] + values;
    forall f | 0 <= f < |t.fields|
      ensures Typed(cells[f], t.fields[f].ty)
    {
      assert f > 0 ==> cells[f] == values[f - 1];
    }
  }

  lemma {:induction false} InsertKeepsSound(t: Table, key: int, row: Row, growOk: bool)
    requires RowsSound(t) && t.rowsCount < MAX_ROW_CAPACITY
    requires ActualKey(t, key) < TWO_31 - 1 && ActualKey(t, key) !in t.rows.Contents()
    requires RowOk(t.fields, Node(ActualKey(t, key), row))
    ensures RowsSound(Inserted(t, key, row, growOk))
    ensures Inserted(t, key, row, growOk).rows.Contents() == t.rows.Contents()[ActualKey(t, key) := row]
  {
    var actual := ActualKey(t, key);
    InsertRefines(t.rows, actual, row, t.rowsCount + 1, growOk);
    InsertGrowth(t.rows, actual, row, t.rowsCount + 1, growOk);
    MapGrowsByOne(t.rows.Contents(), actual, row);
  }

  lemma {:induction false} InsertGrowth(m: RowMap, key: int, row: Row, size: nat, growOk: bool)
    requires DoublingOf16(|m.buckets|) && |m.buckets| <= 0x20_0000 && size <= MAX_ROW_CAPACITY
    ensures var n := |m.Insert(key, row, size, growOk).buckets|; DoublingOf16(n) && n <= 0x20_0000
  {
    if ShouldRehash(size, |m.buckets|) {
      GrowthBounded(|m.buckets|, size);
    }
  }

  lemma {:induction false} MapGrowsByOne(m: map<int, Row>, key: int, row: Row)
    requires key !in m
    ensures |m[key := row]| == |m| + 1
  {
    assert m[key := row].Keys == m.Keys + {key};
    assert |m[key := row]| == |m[key := row].Keys|;
  }

  // ---- DEL ----

  lemma {:induction false} DeleteEffect(t: Table, key: int, lost: set<nat>)
    requires Sound(t)
    ensures var (t', code) := DeleteRow(t, key, lost);
            && Sound(t') && t'.fields == t.fields && t'.name == t.name && t'.nextKey == t.nextKey
            && t'.rows.Contents() == t.rows.Contents() - {key}
            && (code == 0 <==> key in t.rows.Contents())
            && (code == 0 ==> t'.rowsCount == t.rowsCount - 1 && Current(t'))
            && (code != 0 ==> t' == t)
  {
    FindRefines(t.rows, key);
    if key in t.rows.Contents() {
      SoundSplits(t);
      RemoveKeepsSound(t, key);
      RebuildMakesCurrent(t.(rows := t.rows.Remove(key), rowsCount := t.rowsCount - 1), lost);
    } else {
      assert t.rows.Contents() - {key} == t.rows.Contents();
    }
  }

  lemma {:induction false} RemoveKeepsSound(t: Table, key: int)
    requires RowsSound(t) && key in t.rows.Contents()
    ensures var t2 := t.(rows := t.rows.Remove(key), rowsCount := t.rowsCount - 1);
            RowsSound(t2) && t2.rows.Contents() == t.rows.Contents() - {key}
  {
    RemoveRefines(t.rows, key);
    var m, m2 := t.rows.Contents(), t.rows.Remove(key).Contents();
    assert m.Keys == m2.Keys + {key} && key !in m2.Keys;
    assert |m| == |m.Keys| && |m2| == |m2.Keys|;
  }

  // ---- UP ----

  /** The first field at or after i whose update is a blocked append, or the number of fields. */
  function StopAt(fields: seq<Field>, cells: seq<Data>, values: seq<Data>, ignore: seq<bool>, i: nat): (stop: nat)
    requires |fields| == |cells| == |values| + 1 == |ignore| + 1 && i <= |values|
    ensures i <= stop <= |values|
    ensures forall j :: i <= j < stop ==> !Blocked(cells[j + 1], values[j], ignore[j], fields[j + 1].ty)
    ensures stop < |values| ==> Blocked(cells[stop + 1], values[stop], ignore[stop], fields[stop + 1].ty)
    decreases |values| - i
  {
    if i == |values| || Blocked(cells[i + 1], values[i], ignore[i], fields[i + 1].ty) then i
    else StopAt(fields, cells, values, ignore, i + 1)
  }

  /** The cells with the fields from i up to the stop updated and the others untouched. */
  function Updated(
      fields: seq<Field>, cells: seq<Data>, values: seq<Data>, ignore: seq<bool>, i: nat, stop: nat): (r: seq<Data>)
    requires |fields| == |cells| == |values| + 1 == |ignore| + 1 && i <= stop <= |values|
    ensures |r| == |cells|
  {
    seq(|cells|, f requires 0 <= f < |cells| =>
      if i < f <= stop then UpdatedCell(cells[f], values[f - 1], ignore[f - 1], fields[f].ty) else cells[f])
  }

  /** The update loop updates exactly the fields before the first blocked append. */
  lemma {:induction false} UpdateCellsForm(
      fields: seq<Field>, cells: seq<Data>, values: seq<Data>, ignore: seq<bool>, i: nat)
    requires |fields| == |cells| == |values| + 1 == |ignore| + 1 && i <= |values|
    ensures var stop := StopAt(fields, cells, values, ignore, i);
            UpdateCells(fields, cells, values, ignore, i)
              == (Updated(fields, cells, values, ignore, i, stop), stop == |values|)
    decreases |values| - i
  {
    if i < |values| && !Blocked(cells[i + 1], values[i], ignore[i], fields[i + 1].ty) {
      var cells1 := cells[i + 1 := UpdatedCell(cells[i + 1], values[i], ignore[i], fields[i + 1].ty)];
      UpdateCellsForm(fields, cells1, values, ignore, i + 1);
      StopIgnoresEarlier(fields, cells, cells1, values, ignore, i + 1);
      UpdatedStep(fields, cells, values, ignore, i, StopAt(fields, cells, values, ignore, i + 1));
    } else {
      assert Updated(fields, cells, values, ignore, i, i) == cells;
    }
  }

  lemma {:induction false} UpdatedStep(fields: seq<Field>, cells: seq<Data>, values: seq<Data>, ignore: seq<bool>, i: nat, stop: nat)
    requires |fields| == |cells| == |values| + 1 == |ignore| + 1 && i < stop <= |values|
    ensures var cells1 := cells[i + 1 := UpdatedCell(cells[i + 1], values[i], ignore[i], fields[i + 1].ty)];
            Updated(fields, cells1, values, ignore, i + 1, stop) == Updated(fields, cells, values, ignore, i, stop)
  {
  }

  lemma {:induction false} StopIgnoresEarlier(
      fields: seq<Field>, cells: seq<Data>, cells1: seq<Data>, values: seq<Data>, ignore: seq<bool>, i: nat)
    requires |fields| == |cells| == |cells1| == |values| + 1 == |ignore| + 1 && i <= |values|
    requires forall f :: i < f < |cells| ==> cells[f] == cells1[f]
    ensures StopAt(fields, cells, values, ignore, i) == StopAt(fields, cells1, values, ignore, i)
    decreases |values| - i
  {
  }

  /** An update that is not blocked keeps a cell within its column's type, arrays within 1024 elements. */
  lemma {:induction false} UpdatedCellTyped(cell: Data, value: Data, ignored: bool, ty: FieldType)
    requires Typed(cell, ty) && (!ignored ==> Typed(value, ty)) && !Blocked(cell, value, ignored, ty)
    ensures Typed(UpdatedCell(cell, value, ignored, ty), ty)
  {
  }

  lemma {:induction false} PutKeepsSound(t: Table, key: int, row: Row)
    requires RowsSound(t) && SlotsSound(t) && key in t.rows.Contents() && RowOk(t.fields, Node(key, row))
    ensures var t' := t.(rows := t.rows.Put(key, row));
            && RowsSound(t') && SlotsSound(t') && Sound(t')
            && t'.rows.Contents() == t.rows.Contents()[key := row]
  {
    PutRefines(t.rows, key, row);
    var t' := t.(rows := t.rows.Put(key, row));
    assert t'.rows.Contents().Keys == t.rows.Contents().Keys;
    assert |t'.rows.Contents()| == |t'.rows.Contents().Keys|;
    SoundSplits(t');
  }

  /** An UP of this row meets an append to a full array. */
  predicate UpBlocked(fields: seq<Field>, row: Row, values: seq<Data>, ignore: seq<bool>)
    requires |fields| == |row.values| == |values| + 1 == |ignore| + 1
  {
    StopAt(fields, row.values, values, ignore, 0) < |values|
  }

  /** The row an UP leaves behind: fields before the first blocked append updated, creation time kept. */
  function RowAfterUp(fields: seq<Field>, row: Row, values: seq<Data>, ignore: seq<bool>, updated: int): Row
    requires |fields| == |row.values| == |values| + 1 == |ignore| + 1
  {
    Row(Updated(fields, row.values, values, ignore, 0, StopAt(fields, row.values, values, ignore, 0)),
        row.created, updated)
  }

  /** The row an UP leaves behind is well-formed, finished or not. */
  lemma {:induction false} UpdatedRowOk(t: Table, key: int, row: Row, values: seq<Data>, ignore: seq<bool>, updated: int)
    requires SchemaOk(t.fields) && RowOk(t.fields, Node(key, row)) && |values| == |t.fields| - 1 == |ignore|
    requires IsI64(updated)
    requires forall i :: 0 <= i < |values| && !ignore[i] ==> Typed(values[i], t.fields[i + 1].ty)
    ensures RowOk(t.fields, Node(key, RowAfterUp(t.fields, row, values, ignore, updated)))
  {
    var stop := StopAt(t.fields, row.values, values, ignore, 0);
    forall f | 0 < f <= stop
      ensures Typed(UpdatedCell(row.values[f], values[f - 1], ignore[f - 1], t.fields[f].ty), t.fields[f].ty)
    {
      UpdatedCellTyped(row.values[f], values[f - 1], ignore[f - 1], t.fields[f].ty);
    }
  }

  /**
   * A successful UP replaces exactly the fields that are not ignored, turns an append
   * into the old elements plus one, and keeps every other row and counter. A blocked
   * one has written the fields before the block and touched no index.
   */
  lemma {:induction false} UpdateEffect(t: Table, key: int, row: Row, values: seq<Data>, ignore: seq<bool>, now: int, lost: set<nat>)
    requires Sound(t) && Admissible(t, Up(key, values, ignore, now, lost))
    requires |values| == |t.fields| - 1 && key in t.rows.Contents() && row == t.rows.Contents()[key]
    requires RowOk(t.fields, Node(key, row))
    ensures var (t', code) := UpdateRow(t, key, values, ignore, now, lost);
            var blocked := UpBlocked(t.fields, row, values, ignore);
            var row' := RowAfterUp(t.fields, row, values, ignore, if blocked then row.updated else now);
            && code == (if blocked then -5 else 0)
            && t'.rows == t.rows.Put(key, row')
            && (blocked ==> t' == t.(rows := t'.rows))
            && t' == t.(rows := t'.rows, indexes := t'.indexes)
            && Sound(t') && t'.rows.Contents() == t.rows.Contents()[key := row']
            && (!blocked ==> Current(t'))
  {
    FindRefines(t.rows, key);
    SoundSplits(t);
    UpdateShape(t, key, row, values, ignore, now, lost);
    UpdatedRowOk(t, key, row, values, ignore, row.updated);
    var row1 := RowAfterUp(t.fields, row, values, ignore, row.updated);
    if !UpBlocked(t.fields, row, values, ignore) {
      UpdatedRowOk(t, key, row, values, ignore, now);
      UpdateFinish(t, key, row1, now, lost);
    } else {
      PutKeepsSound(t, key, row1);
    }
  }

  /** The two outcomes of UP on a stored row, in closed form. */
  lemma {:induction false} UpdateShape(t: Table, key: int, row: Row, values: seq<Data>, ignore: seq<bool>, now: int, lost: set<nat>)
    requires |t.rows.buckets| > 0 && |t.indexes| == |t.fields| && t.rows.Find(key) == Some(row)
    requires |t.fields| == |row.values| == |values| + 1 == |ignore| + 1
    ensures var row1 := RowAfterUp(t.fields, row, values, ignore, row.updated);
            var t1 := t.(rows := t.rows.Put(key, row1));
            UpdateRow(t, key, values, ignore, now, lost) ==
              if UpBlocked(t.fields, row, values, ignore) then (t1, -5)
              else (RebuildEnabled(t1, lost).(rows := t.rows.Put(key, row1.(updated := now))), 0)
  {
    UpdateCellsForm(t.fields, row.values, values, ignore, 0);
    var row1 := RowAfterUp(t.fields, row, values, ignore, row.updated);
    PutTwice(t.rows, key, row1, row1.(updated := now));
  }

  /** An UP with the wrong number of values, or of an absent row, changes nothing. */
  lemma {:induction false} UpdateRejected(t: Table, key: int, values: seq<Data>, ignore: seq<bool>, now: int, lost: set<nat>)
    requires Sound(t) && |ignore| == |values|
    requires |values| != |t.fields| - 1 || key !in t.rows.Contents()
    ensures UpdateRow(t, key, values, ignore, now, lost) == (t, if |values| != |t.fields| - 1 then -2 else -3)
  {
    FindRefines(t.rows, key);
  }

  lemma {:induction false} PutTwice(m: RowMap, key: int, row1: Row, row2: Row)
    requires |m.buckets| > 0
    ensures m.Put(key, row1).Put(key, row2) == m.Put(key, row2)
  {
    var i := m.BucketOf(key);
    OverwriteTwice(m.buckets[i], key, row1, row2);
    assert m.Put(key, row1).Put(key, row2).buckets == m.Put(key, row2).buckets;
  }

  lemma {:induction false} OverwriteTwice(chain: Chain, key: int, row1: Row, row2: Row)
    ensures Overwrite(Overwrite(chain, key, row1), key, row2) == Overwrite(chain, key, row2)
  {
    if chain != [] && chain[0].key != key {
      OverwriteTwice(chain[1..], key, row1, row2);
      assert Overwrite(chain, key, row1)[1..] == Overwrite(chain[1..], key, row1);
    }
  }

  /** The tail of UP: rebuild, then stamp the row. Timestamps are never indexed. */
  lemma {:induction false} UpdateFinish(t: Table, key: int, row1: Row, now: int, lost: set<nat>)
    requires RowsSound(t) && SlotsSound(t) && key in t.rows.Contents()
    requires RowOk(t.fields, Node(key, row1)) && RowOk(t.fields, Node(key, row1.(updated := now)))
    ensures var t1 := t.(rows := t.rows.Put(key, row1));
            var t3 := RebuildEnabled(t1, lost).(rows := t.rows.Put(key, row1.(updated := now)));
            && Sound(t3) && Current(t3)
            && t3.rows.Contents() == t.rows.Contents()[key := row1.(updated := now)]
  {
    hide Sound, Current, RowOk;
    var t1, row2 := t.(rows := t.rows.Put(key, row1)), row1.(updated := now);
    PutKeepsSound(t, key, row1);
    RebuildMakesCurrent(t1, lost);
    PutTwice(t.rows, key, row1, row2);
    FinishFrom(RebuildEnabled(t1, lost), key, row1, row2);
  }

  lemma {:induction false} FinishFrom(t2: Table, key: int, row1: Row, row2: Row)
    requires Sound(t2) && Current(t2) && key in t2.rows.Contents() && t2.rows.Contents()[key] == row1
    requires row1.values == row2.values && RowOk(t2.fields, Node(key, row2))
    ensures var t3 := t2.(rows := t2.rows.Put(key, row2));
            Sound(t3) && Current(t3) && t3.rows.Contents() == t2.rows.Contents()[key := row2]
  {
    SoundSplits(t2);
    PutKeepsSound(t2, key, row2);
    StampKeepsCurrent(t2, key, row2);
  }

  /** Changing a row without changing its cells leaves every index current. */
  lemma {:induction false} StampKeepsCurrent(t: Table, key: int, row: Row)
    requires Sound(t) && Current(t) && key in t.rows.Contents() && t.rows.Contents()[key].values == row.values
    requires Sound(t.(rows := t.rows.Put(key, row)))
    ensures Current(t.(rows := t.rows.Put(key, row)))
  {
    var t' := t.(rows := t.rows.Put(key, row));
    var a, d := SplitAtKey(t.rows, key, row);
    forall f | 0 <= f < |t.indexes| && t.indexes[f].Enabled?
      ensures IndexCurrent(t', f)
    {
      assert IndexCurrent(t, f);
      RowsIndexable(t.fields, Order(t), f);
      RowsIndexable(t.fields, Order(t'), f);
      FileSameCells(FieldIndex.NoEntries(), Order(t), Order(t'), f, t.fields[f].ty.kind);
    }
  }

  /** The index reads cells only. */
  lemma {:induction false} FileSameCells(ib: FieldIndex.Buckets, a: Chain, b: Chain, f: nat, k: Kind)
    requires |ib| == INDEX_BUCKETS && FieldIndex.AllIndexable(a, f, k) && FieldIndex.AllIndexable(b, f, k)
    requires |a| == |b| && forall i :: 0 <= i < |a| ==> a[i].row.values == b[i].row.values
    ensures FieldIndex.FileAll(ib, a, f, k) == FieldIndex.FileAll(ib, b, f, k)
    decreases |a|
  {
    if a != [] {
      FileSameCells(FieldIndex.File(ib, a[0].row.values[f], a[0].row.values[0].i, k), a[1..], b[1..], f, k);
    }
  }
}
