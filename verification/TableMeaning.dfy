/** What the table operations do, said of the stored rows themselves. */
module TableMeaning {
  import opened Values
  import opened ValueMeaning
  import opened RowMap
  import opened Tables
  import opened TableRuns
  import opened Searches
  import FieldIndex

  // ---- Indexes ----

  /** After an operation an index is enabled exactly if it was and its rebuild did not fail. */
  ghost predicate IndexesKept(t: Table, t': Table, lost: set<nat>)
    requires |t.indexes| == |t'.indexes|
  {
    forall f: nat :: f < |t.indexes| ==> (t'.indexes[f].Enabled? <==> t.indexes[f].Enabled? && f !in lost)
  }

  lemma {:induction false} RebuildKeeps(t: Table, lost: set<nat>)
    requires RowsSound(t) && SlotsSound(t)
    ensures |RebuildEnabled(t, lost).indexes| == |t.indexes| && IndexesKept(t, RebuildEnabled(t, lost), lost)
  {
    RowsOkByKey(t.fields, t.rows);
    forall f: nat | f < |t.fields| && t.fields[f].ty.Scalar?
      ensures FieldIndex.AllIndexable(Order(t), f, t.fields[f].ty.kind)
    {
      RowsIndexable(t.fields, Order(t), f);
    }
  }

  /** CREATE_INDEX enables one index of a scalar column, exactly when it was off and allocation succeeds. */
  lemma {:induction false} IndexMeaning(t: Table, f: int, allocOk: bool)
    requires Sound(t)
    ensures var (t', code) := CreateIndex(t, f, allocOk);
            && code == (if !(0 <= f < |t.fields|) || t.fields[f].ty.Array? then -1
                        else if t.indexes[f].Enabled? then -2
                        else if !allocOk then -3
                        else 0)
            && t' == t.(indexes := t'.indexes) && |t'.indexes| == |t.indexes|
            && (code != 0 ==> t' == t)
            && (code == 0 ==> t'.indexes[f].Enabled? && forall h :: 0 <= h < |t.indexes| && h != f ==> t'.indexes[h] == t.indexes[h])
  {
    if 0 <= f < |t.fields| && t.fields[f].ty.Scalar? {
      RowsIndexable(t.fields, Order(t), f);
    }
  }

  // ---- ADD ----

  /** ADD in full: when it is refused and how, the row it stores, the counters and the indexes. */
  lemma {:induction false} AddMeaning(t: Table, key: int, values: seq<Data>, now: int, growOk: bool, lost: set<nat>)
    requires Sound(t) && Admissible(t, Add(key, values, now, growOk, lost))
    ensures var (t', code) := AddRow(t, key, values, now, growOk, lost);
            var actual := if key < 0 then t.nextKey else key;
            var counter := if actual >= t.nextKey then actual + 1 else t.nextKey;
            && Sound(t') && t'.name == t.name && t'.fields == t.fields
            && code == (if |values| != |t.fields| - 1 then -2
                        else if t.rowsCount >= 1048576 then -3
                        else if actual in t.rows.Contents() then -5
                        else 0)
            && (code == -2 || code == -3 ==> t' == t)
            && (code == -5 ==> t' == t.(nextKey := counter))
            && (code == 0 ==>
                  && t'.rows.Contents() == t.rows.Contents()[actual := Row([IntV(actual)] + values, now, now)]
                  && t'.nextKey == counter && t'.rowsCount == t.rowsCount + 1 && IndexesKept(t, t', lost))
  {
    hide DoublingOf16, RowOk;
    AddEffect(t, key, values, now, growOk, lost);
    FindRefines(t.rows, ActualKey(t, key));
    if AddRow(t, key, values, now, growOk, lost).1 == 0 {
      SoundSplits(t);
      AddedRowOk(t, key, values, now);
      var row := NewRow(t, key, values, now);
      InsertKeepsSound(t, key, row, growOk);
      RebuildKeeps(Inserted(t, key, row, growOk), lost);
    }
  }

  // ---- DEL ----

  lemma {:induction false} DeleteMeaning(t: Table, key: int, lost: set<nat>)
    requires Sound(t)
    ensures var (t', code) := DeleteRow(t, key, lost);
            && Sound(t') && t'.name == t.name && t'.fields == t.fields && t'.nextKey == t.nextKey
            && code == (if key in t.rows.Contents() then 0 else -2)
            && (code != 0 ==> t' == t)
            && (code == 0 ==>
                  && t'.rows.Contents() == t.rows.Contents() - {key}
                  && t'.rowsCount == t.rowsCount - 1 && IndexesKept(t, t', lost))
  {
    hide DoublingOf16, RowOk;
    DeleteEffect(t, key, lost);
    FindRefines(t.rows, key);
    if key in t.rows.Contents() {
      SoundSplits(t);
      RemoveKeepsSound(t, key);
      RebuildKeeps(t.(rows := t.rows.Remove(key), rowsCount := t.rowsCount - 1), lost);
    }
  }

  // ---- UP ----

  /** What UP makes of one field: kept, extended by one element at the end, or replaced. */
  ghost predicate FieldUpdated(prior: Data, next: Data, value: Data, ignored: bool, ty: FieldType) {
    if ignored then next == prior
    else if ty.Array? && value.AppendV? then next.ArrayV? && next.elems == Elements(prior) + [value.elem]
    else next == value
  }

  /** The update appends to an array that already has 1024 elements. */
  ghost predicate AppendsToFull(prior: Data, value: Data, ignored: bool, ty: FieldType) {
    !ignored && ty.Array? && value.AppendV? && |Elements(prior)| >= 1024
  }

  /** The cells of a row before and after its fields up to number `upto` were updated. */
  ghost predicate UpdatedUpTo(fields: seq<Field>, prior: seq<Data>, next: seq<Data>, values: seq<Data>, ignore: seq<bool>, upto: nat)
    requires |fields| == |prior| == |values| + 1 == |ignore| + 1 && upto <= |values|
  {
    && |next| == |prior| && next[0] == prior[0]
    && (forall f :: 0 < f <= upto ==> FieldUpdated(prior[f], next[f], values[f - 1], ignore[f - 1], fields[f].ty))
    && (forall f :: upto < f < |prior| ==> next[f] == prior[f])
  }

  /** Where UP stops: the first append to a full array, or behind the last field. */
  ghost predicate StopsAt(fields: seq<Field>, prior: seq<Data>, values: seq<Data>, ignore: seq<bool>, stop: nat)
    requires |fields| == |prior| == |values| + 1 == |ignore| + 1
  {
    && stop <= |values|
    && (forall f :: 0 <= f < stop ==> !AppendsToFull(prior[f + 1], values[f], ignore[f], fields[f + 1].ty))
    && (stop < |values| ==> AppendsToFull(prior[stop + 1], values[stop], ignore[stop], fields[stop + 1].ty))
  }

  lemma {:induction false} UpdatedMeans(fields: seq<Field>, row: Row, values: seq<Data>, ignore: seq<bool>, updated: int) returns (stop: nat)
    requires |fields| == |row.values| == |values| + 1 == |ignore| + 1
    ensures StopsAt(fields, row.values, values, ignore, stop)
    ensures UpBlocked(fields, row, values, ignore) <==> stop < |values|
    ensures var row' := RowAfterUp(fields, row, values, ignore, updated);
            && UpdatedUpTo(fields, row.values, row'.values, values, ignore, stop)
            && row'.created == row.created && row'.updated == updated
  {
    stop := StopAt(fields, row.values, values, ignore, 0);
    var next := RowAfterUp(fields, row, values, ignore, updated).values;
    forall f | 0 < f <= stop
      ensures FieldUpdated(row.values[f], next[f], values[f - 1], ignore[f - 1], fields[f].ty)
    {
    }
  }

  /**
   * UP of a stored row: every field before the stop is kept, extended at its end or replaced,
   * every field behind it is untouched; it succeeds exactly when there is no stop, and then
   * the row is stamped. The creation time, all other rows and the counters stay.
   */
  lemma {:induction false} UpMeaning(t: Table, key: int, values: seq<Data>, ignore: seq<bool>, now: int, lost: set<nat>)
    returns (stop: nat)
    requires Sound(t) && Admissible(t, Up(key, values, ignore, now, lost))
    requires |values| == |t.fields| - 1 && key in t.rows.Contents()
    ensures var (t', code) := UpdateRow(t, key, values, ignore, now, lost);
            var row := t.rows.Contents()[key];
            && |row.values| == |t.fields| && StopsAt(t.fields, row.values, values, ignore, stop)
            && code == (if stop < |values| then -5 else 0)
            && Sound(t') && t' == t.(rows := t'.rows, indexes := t'.indexes) && key in t'.rows.Contents()
            && var row' := t'.rows.Contents()[key];
               && t'.rows.Contents() == t.rows.Contents()[key := row']
               && UpdatedUpTo(t.fields, row.values, row'.values, values, ignore, stop)
               && row'.created == row.created && row'.updated == (if code == 0 then now else row.updated)
               && (code == 0 ==> IndexesKept(t, t', lost)) && (code != 0 ==> t'.indexes == t.indexes)
  {
    hide DoublingOf16, FieldUpdated, AppendsToFull;
    var row := t.rows.Contents()[key];
    SoundSplits(t);
    assert RowOk(t.fields, Node(key, row));
    UpdateEffect(t, key, row, values, ignore, now, lost);
    stop := UpdatedMeans(t.fields, row, values, ignore, if UpBlocked(t.fields, row, values, ignore) then row.updated else now);
    if !UpBlocked(t.fields, row, values, ignore) {
      FindRefines(t.rows, key);
      UpdateShape(t, key, row, values, ignore, now, lost);
      UpdatedRowOk(t, key, row, values, ignore, row.updated);
      var row1 := RowAfterUp(t.fields, row, values, ignore, row.updated);
      PutKeepsSound(t, key, row1);
      RebuildKeeps(t.(rows := t.rows.Put(key, row1)), lost);
    }
  }

  // ---- SEARCH ----

  /** The rows at these positions of the iteration order, and exactly the matching ones. */
  ghost predicate PicksMatches(nodes: Chain, f: nat, v: Data, ty: FieldType, rows: seq<Row>, at: seq<nat>)
    requires forall i :: 0 <= i < |nodes| ==> f < |nodes[i].row.values| && Typed(nodes[i].row.values[f], ty)
    requires HasKind(v, ty.kind)
  {
    && |at| == |rows|
    && (forall i, j :: 0 <= i < j < |at| ==> at[i] < at[j])
    && (forall i :: 0 <= i < |at| ==> at[i] < |nodes| && rows[i] == nodes[at[i]].row)
    && (forall p: nat :: p < |nodes| ==> (p in at <==> CellMatches(nodes[p].row.values[f], v, ty)))
  }

  lemma {:induction false} ScanPicks(nodes: Chain, f: nat, v: Data, ty: FieldType) returns (at: seq<nat>)
    requires forall i :: 0 <= i < |nodes| ==> f < |nodes[i].row.values| && Typed(nodes[i].row.values[f], ty)
    requires HasKind(v, ty.kind)
    ensures PicksMatches(nodes, f, v, ty, Scan(nodes, f, v, ty), at)
    decreases |nodes|
  {
    hide CompareValues, CellMatches, Typed, HasKind;
    if nodes == [] {
      at := [];
    } else {
      var rest := ScanPicks(nodes[1..], f, v, ty);
      CompareMeaning(nodes[0].row.values[f], v, ty);
      var head: seq<nat> := if CompareValues(nodes[0].row.values[f], v, ty) then [0] else [];
      at := head + Shifted(rest);
      PicksStep(nodes, f, v, ty, Scan(nodes[1..], f, v, ty), rest, head, Scan(nodes, f, v, ty));
    }
  }

  function Shifted(at: seq<nat>): (r: seq<nat>)
    ensures |r| == |at| && forall i :: 0 <= i < |r| ==> r[i] == at[i] + 1
  {
    seq(|at|, i requires 0 <= i < |at| => at[i] + 1)
  }

  lemma {:induction false} PicksStep(
      nodes: Chain, f: nat, v: Data, ty: FieldType, rest: seq<Row>, at: seq<nat>, head: seq<nat>, rows: seq<Row>)
    requires nodes != [] && HasKind(v, ty.kind)
    requires forall i :: 0 <= i < |nodes| ==> f < |nodes[i].row.values| && Typed(nodes[i].row.values[f], ty)
    requires PicksMatches(nodes[1..], f, v, ty, rest, at)
    requires head == if CellMatches(nodes[0].row.values[f], v, ty) then [0] else []
    requires rows == (if head == [] then [] else [nodes[0].row]) + rest
    ensures PicksMatches(nodes, f, v, ty, rows, head + Shifted(at))
  {
    hide CellMatches, Typed, HasKind;
    var all := head + Shifted(at);
    forall p: nat | p < |nodes|
      ensures p in all <==> CellMatches(nodes[p].row.values[f], v, ty)
    {
      InShifted(head, at, p);
      if p > 0 {
        assert nodes[1..][p - 1] == nodes[p];
      }
    }
    PositionsStep(nodes, rest, at, head, rows);
    ShiftedOrder(head, at);
  }

  lemma {:induction false} PositionsStep(nodes: Chain, rest: seq<Row>, at: seq<nat>, head: seq<nat>, rows: seq<Row>)
    requires nodes != [] && (head == [] || head == [0]) && |at| == |rest|
    requires forall i :: 0 <= i < |at| ==> at[i] < |nodes[1..]| && rest[i] == nodes[1..][at[i]].row
    requires rows == (if head == [] then [] else [nodes[0].row]) + rest
    ensures var all := head + Shifted(at);
            |all| == |rows| && forall i :: 0 <= i < |all| ==> all[i] < |nodes| && rows[i] == nodes[all[i]].row
  {
    var all := head + Shifted(at);
    forall i | 0 <= i < |all|
      ensures all[i] < |nodes| && rows[i] == nodes[all[i]].row
    {
      if i >= |head| {
        var j := i - |head|;
        assert rows[i] == rest[j] && all[i] == at[j] + 1;
      }
    }
  }

  lemma {:induction false} ShiftedOrder(head: seq<nat>, at: seq<nat>)
    requires head == [] || head == [0]
    requires forall i, j :: 0 <= i < j < |at| ==> at[i] < at[j]
    ensures var all := head + Shifted(at); forall i, j :: 0 <= i < j < |all| ==> all[i] < all[j]
  {
  }

  lemma {:induction false} InShifted(head: seq<nat>, at: seq<nat>, p: nat)
    requires head == [] || head == [0]
    ensures p in head + Shifted(at) <==> (p == 0 && head == [0]) || (p > 0 && p - 1 in at)
  {
    var all, shifted := head + Shifted(at), Shifted(at);
    if p > 0 && p - 1 in at {
      var i :| 0 <= i < |at| && at[i] == p - 1;
      assert shifted[i] == p && all[|head| + i] == p;
    }
    if p in all {
      var j :| 0 <= j < |all| && all[j] == p;
      if j >= |head| {
        assert shifted[j - |head|] == p && at[j - |head|] == p - 1;
      }
    }
  }

  lemma {:induction false} RowsSearchable(t: Table, f: nat)
    requires Sound(t) && f < |t.fields|
    ensures forall i :: 0 <= i < |Order(t)| ==>
      f < |Order(t)[i].row.values| && Typed(Order(t)[i].row.values[f], t.fields[f].ty)
  {
    forall i | 0 <= i < |Order(t)|
      ensures f < |Order(t)[i].row.values| && Typed(Order(t)[i].row.values[f], t.fields[f].ty)
    {
      assert RowOk(t.fields, Order(t)[i]);
    }
  }

  /**
   * SEARCH lists, in iteration order and each once, exactly the stored rows whose cell is the
   * value or, on an array column, holds it.
   */
  lemma {:induction false} SearchMeaning(t: Table, f: nat, v: Data) returns (at: seq<nat>)
    requires Sound(t) && Current(t) && f < |t.fields| && HasKind(v, t.fields[f].ty.kind)
    ensures forall i :: 0 <= i < |Order(t)| ==>
      f < |Order(t)[i].row.values| && Typed(Order(t)[i].row.values[f], t.fields[f].ty)
    ensures PicksMatches(Order(t), f, v, t.fields[f].ty, Search(t, f, v), at)
  {
    hide Current, Scan, CompareValues, CellMatches, Typed, HasKind, PicksMatches;
    RowsSearchable(t, f);
    CurrentSearchIsScan(t);
    assert Searchable(t.fields, f, v);
    at := ScanPicks(Order(t), f, v, t.fields[f].ty);
  }

  /** Row by row: a stored row is in the answer exactly when its cell matches. */
  lemma {:induction false} FoundIff(t: Table, f: nat, v: Data, key: int)
    requires Sound(t) && Current(t) && f < |t.fields| && HasKind(v, t.fields[f].ty.kind) && key in t.rows.Contents()
    ensures var row := t.rows.Contents()[key];
            && f < |row.values| && Typed(row.values[f], t.fields[f].ty)
            && (row in Search(t, f, v) <==> CellMatches(row.values[f], v, t.fields[f].ty))
  {
    hide Current, CellMatches, Typed, HasKind, Search;
    var at := SearchMeaning(t, f, v);
    IterationOrder(t.rows);
    var order, row, r := Order(t), t.rows.Contents()[key], Search(t, f, v);
    assert Node(key, row) in order;
    var p :| 0 <= p < |order| && order[p] == Node(key, row);
    if p in at {
      var i :| 0 <= i < |at| && at[i] == p;
      assert r[i] == row;
    }
    if row in r {
      var i :| 0 <= i < |r| && r[i] == row;
      assert order[at[i]].row == row && at[i] in at;
    }
  }

  /** The two zeros find each other through SEARCH, index or not; NaN finds nothing, not even itself. */
  lemma {:induction false} ZerosFound(t: Table, f: nat, key: int)
    requires Sound(t) && Current(t) && f < |t.fields| && t.fields[f].ty == Scalar(KDouble) && key in t.rows.Contents()
    ensures var row := t.rows.Contents()[key];
            && f < |row.values| && row.values[f].DoubleV?
            && (row in Search(t, f, DoubleV(0)) <==> row.values[f] == DoubleV(0) || row.values[f] == DoubleV(TWO_63))
            && (row in Search(t, f, DoubleV(TWO_63)) <==> row.values[f] == DoubleV(0) || row.values[f] == DoubleV(TWO_63))
            && forall bits :: 0 <= bits < TWO_64 && IsNaN(bits) ==> row !in Search(t, f, DoubleV(bits))
  {
    hide Current, Search, DoublingOf16, RowOk;
    var row := t.rows.Contents()[key];
    FoundIff(t, f, DoubleV(0), key);
    FoundIff(t, f, DoubleV(TWO_63), key);
    ZeroNumbers(row.values[f].bits);
    forall bits | 0 <= bits < TWO_64 && IsNaN(bits)
      ensures row !in Search(t, f, DoubleV(bits))
    {
      FoundIff(t, f, DoubleV(bits), key);
      PatternParts(bits);
    }
  }

  lemma {:induction false} ZeroNumbers(bits: int)
    requires 0 <= bits < TWO_64
    ensures NumberOf(0) == NumberOf(TWO_63) == Finite(0)
    ensures NumberOf(bits) == Finite(0) <==> bits == 0 || bits == TWO_63
  {
    hide Magnitude;
    PatternParts(bits);
    ZeroMagnitude(Exponent(bits), Fraction(bits));
    ZeroMagnitude(0, 0);
  }
}
