/**
 * An UP that stops at a full array returns with earlier fields written and indexes
 * not rebuilt. This module says exactly when searches are still right afterwards.
 */
module StaleIndexes {
  import opened Values
  import opened RowMap
  import opened Tables
  import opened TableRuns
  import opened Searches
  import FieldIndex

  /** No search can tell the two cells apart: they are equal, or neither equals anything. */
  predicate Alike(a: Data, b: Data, k: Kind) {
    DataValueEquals(a, b, k) || (!DataValueEquals(a, a, k) && !DataValueEquals(b, b, k))
  }

  lemma {:induction false} AlikeMeaning(a: Data, b: Data, k: Kind)
    requires HasKind(a, k) && HasKind(b, k)
    ensures Alike(a, b, k) <==> forall v :: HasKind(v, k) ==> (DataValueEquals(a, v, k) <==> DataValueEquals(b, v, k))
  {
    if Alike(a, b, k) {
      forall v | HasKind(v, k)
        ensures DataValueEquals(a, v, k) <==> DataValueEquals(b, v, k)
      {
        if DataValueEquals(a, b, k) {
          EqualsTransfers(a, b, v, k);
        }
      }
    }
  }

  // ---- Who is in a result ----

  lemma {:induction false} KeyInMatches(nodes: Chain, at: nat, f: nat, v: Data, k: Kind)
    requires FieldIndex.AllIndexable(nodes, f, k) && at < |nodes|
    requires forall i, j :: 0 <= i < j < |nodes| ==> nodes[i].key != nodes[j].key
    ensures nodes[at].key in FieldIndex.MatchingKeys(nodes, f, v, k) <==> DataValueEquals(nodes[at].row.values[f], v, k)
  {
    OnlyMatches(nodes[1..], f, v, k, nodes[0].key);
    if at > 0 {
      KeyInMatches(nodes[1..], at - 1, f, v, k);
    }
  }

  lemma {:induction false} OnlyMatches(nodes: Chain, f: nat, v: Data, k: Kind, key: int)
    requires FieldIndex.AllIndexable(nodes, f, k)
    requires forall i :: 0 <= i < |nodes| ==> nodes[i].key != key
    ensures key !in FieldIndex.MatchingKeys(nodes, f, v, k)
  {
    if nodes != [] {
      OnlyMatches(nodes[1..], f, v, k, key);
    }
  }

  lemma {:induction false} RowInRowsOf(m: RowMap, keys: seq<int>, key: int, row: Row)
    requires |m.buckets| > 0 && m.Find(key) == Some(row)
    requires forall k :: m.Find(k) == Some(row) ==> k == key
    ensures row in RowsOf(m, keys) <==> key in keys
  {
    if keys != [] {
      RowInRowsOf(m, keys[1..], key, row);
    }
  }

  lemma {:induction false} RowInScan(nodes: Chain, at: nat, f: nat, v: Data, ty: FieldType)
    requires at < |nodes| && f < |nodes[at].row.values|
    requires forall i :: 0 <= i < |nodes| && i != at ==> nodes[i].row != nodes[at].row
    ensures nodes[at].row in Scan(nodes, f, v, ty) <==> CompareValues(nodes[at].row.values[f], v, ty)
  {
    if at > 0 {
      RowInScan(nodes[1..], at - 1, f, v, ty);
    } else {
      NotInScan(nodes[1..], f, v, ty, nodes[0].row);
    }
  }

  lemma {:induction false} NotInScan(nodes: Chain, f: nat, v: Data, ty: FieldType, row: Row)
    requires forall i :: 0 <= i < |nodes| ==> nodes[i].row != row
    ensures row !in Scan(nodes, f, v, ty)
  {
    if nodes != [] {
      NotInScan(nodes[1..], f, v, ty, row);
    }
  }

  /** Matching keys depend only on which cells match. */
  lemma {:induction false} MatchesAlike(a: Chain, b: Chain, f: nat, v: Data, k: Kind)
    requires FieldIndex.AllIndexable(a, f, k) && FieldIndex.AllIndexable(b, f, k) && |a| == |b|
    requires forall i :: 0 <= i < |a| ==> a[i].key == b[i].key
    requires forall i :: 0 <= i < |a| ==>
               (DataValueEquals(a[i].row.values[f], v, k) <==> DataValueEquals(b[i].row.values[f], v, k))
    ensures FieldIndex.MatchingKeys(a, f, v, k) == FieldIndex.MatchingKeys(b, f, v, k)
  {
    if a != [] {
      MatchesAlike(a[1..], b[1..], f, v, k);
    }
  }

  // ---- One column after an in-place change of one row ----

  /** The table with one stored row overwritten and its indexes left as they were. */
  ghost predicate Overwritten(t: Table, t': Table, key: int, row: Row) {
    && Sound(t) && Current(t) && Sound(t') && key in t.rows.Contents()
    && t' == t.(rows := t.rows.Put(key, row))
    && t'.rows.Contents() == t.rows.Contents()[key := row]
  }

  ghost predicate ColumnExact(t: Table, f: nat)
    requires Sound(t) && f < |t.fields|
  {
    forall v :: Searchable(t.fields, f, v) ==> Search(t, f, v) == Scan(Order(t), f, v, t.fields[f].ty)
  }

  /** The index still answers from the old cells. */
  lemma {:induction false} StaleAnswer(t: Table, t': Table, key: int, row: Row, f: nat, v: Data)
    requires Overwritten(t, t', key, row) && f < |t.fields| && t.indexes[f].Enabled? && Searchable(t.fields, f, v)
    requires FieldIndex.AllIndexable(Order(t), f, t.fields[f].ty.kind)
    ensures Search(t', f, v) == RowsOf(t'.rows, FieldIndex.MatchingKeys(Order(t), f, v, t.fields[f].ty.kind))
  {
    assert IndexCurrent(t, f);
    IterationOrder(t.rows);
    FieldIndex.BuildEffect(Order(t), f, v, t.fields[f].ty.kind);
  }

  lemma {:induction false} AlikeKeepsExact(t: Table, t': Table, key: int, row: Row, f: nat)
    requires Overwritten(t, t', key, row) && f < |t.fields| && t.indexes[f].Enabled?
    requires RowOk(t.fields, Node(key, row)) && RowOk(t.fields, Node(key, t.rows.Contents()[key]))
    requires Alike(t.rows.Contents()[key].values[f], row.values[f], t.fields[f].ty.kind)
    ensures ColumnExact(t', f)
  {
    forall v | Searchable(t.fields, f, v)
      ensures Search(t', f, v) == Scan(Order(t'), f, v, t.fields[f].ty)
    {
      RowsIndexable(t.fields, Order(t), f);
      RowsIndexable(t.fields, Order(t'), f);
      StaleAnswer(t, t', key, row, f, v);
      SameMatches(t, t', key, row, f, v);
      FindsEachNode(t'.rows);
      RowsOfMatches(t'.rows, Order(t'), f, v, t.fields[f].ty.kind);
    }
  }

  lemma {:induction false} SameMatches(t: Table, t': Table, key: int, row: Row, f: nat, v: Data)
    requires Overwritten(t, t', key, row) && f < |t.fields| && t.fields[f].ty.Scalar? && Searchable(t.fields, f, v)
    requires f < |row.values| && f < |t.rows.Contents()[key].values|
    requires var k := t.fields[f].ty.kind;
             && FieldIndex.AllIndexable(Order(t), f, k) && FieldIndex.AllIndexable(Order(t'), f, k)
             && HasKind(t.rows.Contents()[key].values[f], k) && HasKind(row.values[f], k)
             && Alike(t.rows.Contents()[key].values[f], row.values[f], k)
    ensures var k := t.fields[f].ty.kind;
            FieldIndex.MatchingKeys(Order(t), f, v, k) == FieldIndex.MatchingKeys(Order(t'), f, v, k)
  {
    hide DataValueEquals, HasKind, Alike, FieldIndex.MatchingKeys;
    var k := t.fields[f].ty.kind;
    var a, d := SplitAtKey(t.rows, key, row);
    AlikeMeaning(t.rows.Contents()[key].values[f], row.values[f], k);
    MatchesAlike(Order(t), Order(t'), f, v, k);
  }

  lemma {:induction false} ExactNeedsAlike(t: Table, t': Table, key: int, row: Row, f: nat)
    requires Overwritten(t, t', key, row) && f < |t.fields| && t.indexes[f].Enabled?
    requires RowOk(t.fields, Node(key, row)) && RowOk(t.fields, Node(key, t.rows.Contents()[key]))
    requires ColumnExact(t', f)
    ensures Alike(t.rows.Contents()[key].values[f], row.values[f], t.fields[f].ty.kind)
  {
    var k := t.fields[f].ty.kind;
    var prior := t.rows.Contents()[key];
    forall v | HasKind(v, k)
      ensures DataValueEquals(prior.values[f], v, k) <==> DataValueEquals(row.values[f], v, k)
    {
      assert Search(t', f, v) == Scan(Order(t'), f, v, t.fields[f].ty);
      IndexSeesOld(t, t', key, row, f, v);
      ScanSeesNew(t, t', key, row, f, v);
    }
    AlikeMeaning(prior.values[f], row.values[f], k);
  }

  /** The changed row is in the indexed answer exactly when its old cell matches. */
  lemma {:induction false} IndexSeesOld(t: Table, t': Table, key: int, row: Row, f: nat, v: Data)
    requires Overwritten(t, t', key, row) && f < |t.fields| && t.indexes[f].Enabled? && Searchable(t.fields, f, v)
    requires RowOk(t.fields, Node(key, row)) && RowOk(t.fields, Node(key, t.rows.Contents()[key]))
    ensures row in Search(t', f, v) <==>
            DataValueEquals(t.rows.Contents()[key].values[f], v, t.fields[f].ty.kind)
  {
    var k := t.fields[f].ty.kind;
    var a, d := SplitAtKey(t.rows, key, row);
    RowsIndexable(t.fields, Order(t), f);
    StaleAnswer(t, t', key, row, f, v);
    IterationOrder(t.rows);
    KeyInMatches(Order(t), |a|, f, v, k);
    FindRefines(t'.rows, key);
    forall x | t'.rows.Find(x) == Some(row)
      ensures x == key
    {
      FindRefines(t'.rows, x);
      RowsOkByKey(t.fields, t'.rows);
      assert RowOk(t.fields, Node(x, row));
    }
    RowInRowsOf(t'.rows, FieldIndex.MatchingKeys(Order(t), f, v, k), key, row);
  }

  /** The changed row is in the full scan exactly when its new cell matches. */
  lemma {:induction false} ScanSeesNew(t: Table, t': Table, key: int, row: Row, f: nat, v: Data)
    requires Overwritten(t, t', key, row) && f < |t.fields| && t.fields[f].ty.Scalar?
    requires RowOk(t.fields, Node(key, row))
    ensures row in Scan(Order(t'), f, v, t.fields[f].ty) <==> DataValueEquals(row.values[f], v, t.fields[f].ty.kind)
  {
    var a, d := SplitAtKey(t.rows, key, row);
    var order := Order(t');
    IterationOrder(t'.rows);
    forall i | 0 <= i < |order| && i != |a|
      ensures order[i].row != order[|a|].row
    {
      assert RowOk(t.fields, order[i]);
      assert order[i].key != order[|a|].key;
    }
    RowInScan(order, |a|, f, v, t.fields[f].ty);
    ComparisonsAgree(row.values[f], v, t.fields[f].ty.kind);
  }

  // ---- The whole table after a blocked UP ----

  /** The caller's test: no indexed field written before the block changes what searches see. */
  predicate HarmlessBeforeBlock(t: Table, row: Row, values: seq<Data>, ignore: seq<bool>)
    requires |t.fields| == |row.values| == |values| + 1 == |ignore| + 1 && |t.indexes| == |t.fields|
  {
    var stop := StopAt(t.fields, row.values, values, ignore, 0);
    forall f :: 0 < f <= stop && !ignore[f - 1] && t.indexes[f].Enabled? ==>
      Alike(row.values[f], values[f - 1], t.fields[f].ty.kind)
  }

  /** After a blocked UP, searches are exact if and only if the fields written before the block are harmless. */
  lemma {:induction false} BlockedUpExactIff(
      t: Table, key: int, row: Row, values: seq<Data>, ignore: seq<bool>, now: int, lost: set<nat>)
    requires Sound(t) && Current(t) && Admissible(t, Up(key, values, ignore, now, lost))
    requires |values| == |t.fields| - 1 && key in t.rows.Contents() && row == t.rows.Contents()[key]
    requires RowOk(t.fields, Node(key, row)) && UpBlocked(t.fields, row, values, ignore)
    ensures var t' := UpdateRow(t, key, values, ignore, now, lost).0;
            Sound(t') && (SearchExact(t') <==> HarmlessBeforeBlock(t, row, values, ignore))
  {
    UpdateEffect(t, key, row, values, ignore, now, lost);
    var t' := UpdateRow(t, key, values, ignore, now, lost).0;
    var row' := RowAfterUp(t.fields, row, values, ignore, row.updated);
    UpdatedRowOk(t, key, row, values, ignore, row.updated);
    forall f: nat | f < |t.fields| && t.indexes[f].Enabled?
      ensures ColumnExact(t', f) <==> Alike(row.values[f], row'.values[f], t.fields[f].ty.kind)
    {
      if Alike(row.values[f], row'.values[f], t.fields[f].ty.kind) {
        AlikeKeepsExact(t, t', key, row', f);
      } else if ColumnExact(t', f) {
        ExactNeedsAlike(t, t', key, row', f);
      }
    }
    ExactByColumn(t');
    WrittenCells(t, row, row', values, ignore);
  }

  lemma {:induction false} ExactByColumn(t: Table)
    requires Sound(t)
    ensures SearchExact(t) <==> forall f: nat :: f < |t.fields| && t.indexes[f].Enabled? ==> ColumnExact(t, f)
  {
    if SearchExact(t) {
      forall f: nat | f < |t.fields|
        ensures ColumnExact(t, f)
      {
      }
    }
  }

  lemma {:induction false} WrittenCells(t: Table, row: Row, row': Row, values: seq<Data>, ignore: seq<bool>)
    requires SlotsSound(t) && |t.fields| == |row.values| == |values| + 1 == |ignore| + 1
    requires row' == RowAfterUp(t.fields, row, values, ignore, row.updated)
    ensures HarmlessBeforeBlock(t, row, values, ignore) <==>
            forall f: nat :: f < |t.fields| && t.indexes[f].Enabled? ==>
              Alike(row.values[f], row'.values[f], t.fields[f].ty.kind)
  {
  }

  // ---- A concrete blocked UP that misleads the index ----

  const SAMPLE_FIELDS: seq<Field> := [KEY_FIELD, Field("n", Scalar(KInt)), Field("a", Array(KInt))]

  function SampleRow(): Row {
    Row([IntV(1), IntV(1), ArrayV(seq(MAX_ARRAY_LENGTH, _ => IntV(0)))], 0, 0)
  }

  lemma {:induction false} SampleIndexed(hash: int -> nat) returns (t: Table)
    ensures Sound(t) && Current(t) && t.fields == SAMPLE_FIELDS && t.indexes[1].Enabled?
    ensures t.rows.Contents() == map[] && t.nextKey == 1 && t.rowsCount == 0
  {
    var user := SAMPLE_FIELDS[1..];
    var t0 := Create(hash, "t", user);
    CreateSound(hash, "t", user);
    assert t0.fields == SAMPLE_FIELDS;
    CreateIndexSound(t0, 1, true);
    t := CreateIndex(t0, 1, true).0;
    RowsIndexable(t0.fields, Order(t0), 1);
  }

  lemma {:induction false} SampleTable(hash: int -> nat) returns (t: Table)
    ensures Sound(t) && Current(t) && t.fields == SAMPLE_FIELDS && t.indexes[1].Enabled?
    ensures 1 in t.rows.Contents() && t.rows.Contents()[1] == SampleRow()
  {
    var t1 := SampleIndexed(hash);
    var cells := SampleRow().values[1..];
    assert forall i :: 0 <= i < 2 ==> Typed(cells[i], SAMPLE_FIELDS[i + 1].ty);
    AddEffect(t1, -1, cells, 0, true, {});
    t := AddRow(t1, -1, cells, 0, true, {}).0;
    assert [IntV(1)] + cells == SampleRow().values;
    SoundSplits(t);
    RowsIndexable(t.fields, Order(t), 1);
  }

  /** UP 1 (2, [...+0]) on that row writes column n, then stops: searching n for 1 or 2 is now wrong. */
  lemma {:induction false} BlockedUpMisleads(hash: int -> nat) returns (t: Table)
    ensures Sound(t) && Current(t)
    ensures var values, ignore := [IntV(2), AppendV(IntV(0))], [false, false];
            && Admissible(t, Up(1, values, ignore, 0, {}))
            && var (t', code) := UpdateRow(t, 1, values, ignore, 0, {});
               code == -5 && Sound(t') && !SearchExact(t')
  {
    hide Sound, Current, SearchExact, RowsSound, SlotsSound, StopAt, Alike;
    t := SampleTable(hash);
    var values, ignore := [IntV(2), AppendV(IntV(0))], [false, false];
    SampleBlocks(t.fields, values, ignore);
    SoundSplits(t);
    BlockedUpExactIff(t, 1, SampleRow(), values, ignore, 0, {});
    UpdateEffect(t, 1, SampleRow(), values, ignore, 0, {});
  }

  lemma {:induction false} SampleBlocks(fields: seq<Field>, values: seq<Data>, ignore: seq<bool>)
    requires fields == SAMPLE_FIELDS && values == [IntV(2), AppendV(IntV(0))] && ignore == [false, false]
    ensures StopAt(fields, SampleRow().values, values, ignore, 0) == 1
    ensures !Alike(SampleRow().values[1], values[0], KInt)
  {
  }
}
