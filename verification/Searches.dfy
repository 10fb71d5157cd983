/** Indexed search against the full scan, and what whole runs of table operations guarantee. */
module Searches {
  import opened Values
  import opened RowMap
  import opened Tables
  import opened TableRuns
  import FieldIndex

  /** The value can be searched for on the column: a scalar of its kind, or anything on an array column. */
  predicate Searchable(fields: seq<Field>, f: nat, v: Data) {
    f < |fields| && (fields[f].ty.Scalar? ==> HasKind(v, fields[f].ty.kind))
  }

  /** On every column and for every value, SEARCH gives what the full scan gives, in the same order. */
  ghost predicate SearchExact(t: Table)
    requires Sound(t)
  {
    forall f: nat, v :: Searchable(t.fields, f, v) ==> Search(t, f, v) == Scan(Order(t), f, v, t.fields[f].ty)
  }

  // ---- From keys back to rows ----

  /** Looking up the keys of the matching nodes gives the matching rows. */
  lemma {:induction false} RowsOfMatches(m: RowMap, nodes: Chain, f: nat, v: Data, k: Kind)
    requires |m.buckets| > 0 && FieldIndex.AllIndexable(nodes, f, k)
    requires forall i :: 0 <= i < |nodes| ==> m.Find(nodes[i].key) == Some(nodes[i].row)
    ensures RowsOf(m, FieldIndex.MatchingKeys(nodes, f, v, k)) == Scan(nodes, f, v, Scalar(k))
  {
    if nodes != [] {
      RowsOfMatches(m, nodes[1..], f, v, k);
      assert FieldIndex.Indexable(nodes[0], f, k);
      ComparisonsAgree(nodes[0].row.values[f], v, k);
      var keys := FieldIndex.MatchingKeys(nodes, f, v, k);
      if DataValueEquals(nodes[0].row.values[f], v, k) {
        assert keys[0] == nodes[0].key && keys[1..] == FieldIndex.MatchingKeys(nodes[1..], f, v, k);
      } else {
        assert keys == FieldIndex.MatchingKeys(nodes[1..], f, v, k);
      }
    }
  }

  lemma {:induction false} FindsEachNode(m: RowMap)
    requires m.Valid()
    ensures forall i :: 0 <= i < |Flatten(m.buckets)| ==>
              m.Find(Flatten(m.buckets)[i].key) == Some(Flatten(m.buckets)[i].row)
  {
    IterationOrder(m);
    forall i | 0 <= i < |Flatten(m.buckets)|
      ensures m.Find(Flatten(m.buckets)[i].key) == Some(Flatten(m.buckets)[i].row)
    {
      FindRefines(m, Flatten(m.buckets)[i].key);
      assert Flatten(m.buckets)[i] in Flatten(m.buckets);
    }
  }

  /** With every enabled index current, indexed search is the full scan. */
  lemma {:induction false} CurrentSearchIsScan(t: Table)
    requires Sound(t) && Current(t)
    ensures SearchExact(t)
  {
    forall f: nat, v | Searchable(t.fields, f, v)
      ensures Search(t, f, v) == Scan(Order(t), f, v, t.fields[f].ty)
    {
      if t.indexes[f].Enabled? {
        assert IndexCurrent(t, f);
        var k := t.fields[f].ty.kind;
        RowsIndexable(t.fields, Order(t), f);
        IterationOrder(t.rows);
        FieldIndex.BuildEffect(Order(t), f, v, k);
        FindsEachNode(t.rows);
        RowsOfMatches(t.rows, Order(t), f, v, k);
      }
    }
  }

  // ---- Runs ----

  /** One step: soundness always, currency unless an UP was blocked. */
  lemma {:induction false} StepKeeps(t: Table, op: Op)
    requires Sound(t) && Admissible(t, op)
    ensures var (t', code) := Step(t, op);
            && Sound(t') && t'.fields == t.fields && t'.name == t.name
            && t'.nextKey >= t.nextKey
            && (Current(t) && !(op.Up? && code == -5) ==> Current(t'))
  {
    hide Sound, Current, AddRow, DeleteRow, UpdateRow;
    match op
    case Add(key, values, now, growOk, lost) => AddStepKeeps(t, key, values, now, growOk, lost);
    case Del(key, lost) => DeleteEffect(t, key, lost);
    case Index(f, allocOk) => CreateIndexSound(t, f, allocOk);
    case Up(key, values, ignore, now, lost) => UpStepKeeps(t, key, values, ignore, now, lost);
  }

  lemma {:induction false} AddStepKeeps(t: Table, key: int, values: seq<Data>, now: int, growOk: bool, lost: set<nat>)
    requires Sound(t) && Admissible(t, Add(key, values, now, growOk, lost))
    ensures var t' := AddRow(t, key, values, now, growOk, lost).0;
            && Sound(t') && t'.fields == t.fields && t'.name == t.name && t'.nextKey >= t.nextKey
            && (Current(t) ==> Current(t'))
  {
    AddEffect(t, key, values, now, growOk, lost);
  }

  lemma {:induction false} UpStepKeeps(t: Table, key: int, values: seq<Data>, ignore: seq<bool>, now: int, lost: set<nat>)
    requires Sound(t) && Admissible(t, Up(key, values, ignore, now, lost))
    ensures var (t', code) := UpdateRow(t, key, values, ignore, now, lost);
            && Sound(t') && t'.fields == t.fields && t'.name == t.name && t'.nextKey == t.nextKey
            && t'.rowsCount == t.rowsCount && t'.rows.Contents().Keys == t.rows.Contents().Keys
            && |t'.rows.buckets| == |t.rows.buckets|
            && (Current(t) && code != -5 ==> Current(t'))
  {
    if |values| == |t.fields| - 1 && key in t.rows.Contents() {
      SoundSplits(t);
      UpdateEffect(t, key, t.rows.Contents()[key], values, ignore, now, lost);
    } else {
      UpdateRejected(t, key, values, ignore, now, lost);
    }
  }

  /** Every operation of the run is admissible where it is applied. */
  ghost predicate RunOk(t: Table, ops: seq<Op>)
    requires Sound(t)
    decreases |ops|
  {
    ops == [] || (Admissible(t, ops[0]) && (StepKeeps(t, ops[0]); RunOk(Step(t, ops[0]).0, ops[1..])))
  }

  ghost function Run(t: Table, ops: seq<Op>): Table
    requires Sound(t) && RunOk(t, ops)
    decreases |ops|
  {
    if ops == [] then t else StepKeeps(t, ops[0]); Run(Step(t, ops[0]).0, ops[1..])
  }

  /** No UP of the run stopped at a full array. */
  ghost predicate NoBlockedUp(t: Table, ops: seq<Op>)
    requires Sound(t) && RunOk(t, ops)
    decreases |ops|
  {
    ops == [] || (!(ops[0].Up? && Step(t, ops[0]).1 == -5) && (StepKeeps(t, ops[0]); NoBlockedUp(Step(t, ops[0]).0, ops[1..])))
  }

  /**
   * After any run in which no UP was blocked, with index rebuilds and rehashes failing
   * at will, SEARCH gives on every column exactly the rows of the full scan, in order.
   */
  lemma {:induction false} RunSearchExact(t: Table, ops: seq<Op>)
    requires Sound(t) && Current(t) && RunOk(t, ops) && NoBlockedUp(t, ops)
    ensures Sound(Run(t, ops)) && Current(Run(t, ops)) && SearchExact(Run(t, ops))
    decreases |ops|
  {
    if ops == [] {
      CurrentSearchIsScan(t);
    } else {
      StepKeeps(t, ops[0]);
      RunSearchExact(Step(t, ops[0]).0, ops[1..]);
    }
  }

  /** A new table is sound, and so is every table a run reaches, blocked UPs included. */
  lemma {:induction false} CreateSound(hash: int -> nat, name: string, userFields: seq<Field>)
    requires |userFields| >= 1
    ensures Sound(Create(hash, name, userFields)) && Current(Create(hash, name, userFields))
    ensures Create(hash, name, userFields).rows.Contents() == map[]
  {
    EmptyIsEmpty(hash, INITIAL_ROW_CAPACITY);
  }

  lemma {:induction false} RunSound(t: Table, ops: seq<Op>)
    requires Sound(t) && RunOk(t, ops)
    ensures Sound(Run(t, ops)) && Run(t, ops).fields == t.fields && Run(t, ops).nextKey >= t.nextKey
    decreases |ops|
  {
    if ops != [] {
      StepKeeps(t, ops[0]);
      RunSound(Step(t, ops[0]).0, ops[1..]);
    }
  }

  // ---- Keys over a run ----

  /** Every key the table has held at some point of the run. */
  ghost function KeysEver(t: Table, ops: seq<Op>): set<int>
    requires Sound(t) && RunOk(t, ops)
    decreases |ops|
  {
    if ops == [] then t.rows.Contents().Keys
    else StepKeeps(t, ops[0]); t.rows.Contents().Keys + KeysEver(Step(t, ops[0]).0, ops[1..])
  }

  /** The key counter is above every key ever stored, and stored keys are never negative. */
  lemma {:induction false} NextKeyAboveHistory(t: Table, ops: seq<Op>)
    requires Sound(t) && RunOk(t, ops)
    ensures forall k :: k in KeysEver(t, ops) ==> 0 <= k < Run(t, ops).nextKey
    decreases |ops|
  {
    RunSound(t, ops);
    if ops != [] {
      StepKeeps(t, ops[0]);
      NextKeyAboveHistory(Step(t, ops[0]).0, ops[1..]);
    }
  }

  /**
   * After any run, an ADD with an automatic key and the right number of values is
   * accepted below the row cap, under a key the table has never held.
   */
  lemma {:induction false} AutoKeyIsNew(t: Table, ops: seq<Op>, key: int, values: seq<Data>, now: int, growOk: bool, lost: set<nat>)
    requires Sound(t) && RunOk(t, ops) && key < 0
    requires Admissible(Run(t, ops), Add(key, values, now, growOk, lost))
    requires |values| == |t.fields| - 1 && Sound(Run(t, ops))
    ensures var t1 := Run(t, ops);
            var (t2, code) := AddRow(t1, key, values, now, growOk, lost);
            && code == (if t1.rowsCount >= MAX_ROW_CAPACITY then -3 else 0)
            && (code == 0 ==> Sound(t2) && t1.nextKey in t2.rows.Contents() && t1.nextKey !in KeysEver(t, ops))
  {
    RunSound(t, ops);
    NextKeyAboveHistory(t, ops);
    AddEffect(Run(t, ops), key, values, now, growOk, lost);
  }

  // ---- Load of the bucket array ----

  /** Less than three quarters full. */
  predicate Light(t: Table) {
    4 * t.rowsCount < 3 * |t.rows.buckets|
  }

  ghost predicate AlwaysGrows(ops: seq<Op>) {
    forall i :: 0 <= i < |ops| ==> ops[i].Add? ==> ops[i].growOk
  }

  lemma {:induction false} StepKeepsLight(t: Table, op: Op)
    requires Sound(t) && Admissible(t, op) && Light(t) && (op.Add? ==> op.growOk)
    ensures Light(Step(t, op).0)
  {
    match op
    case Add(key, values, now, growOk, lost) => AddEffect(t, key, values, now, growOk, lost);
    case Del(key, lost) => DeleteEffect(t, key, lost);
    case Index(f, allocOk) =>
    case Up(key, values, ignore, now, lost) => UpStepKeeps(t, key, values, ignore, now, lost);
  }

  /**
   * While bucket allocation succeeds, every reachable table is less than three quarters
   * full; succeeding or not, its bucket count is 16 times a power of two, at most 2^21,
   * and the products of the load test stay below 2^31.
   */
  lemma {:induction false} RunLoad(t: Table, ops: seq<Op>)
    requires Sound(t) && RunOk(t, ops)
    ensures var t' := Run(t, ops);
            && DoublingOf16(|t'.rows.buckets|) && |t'.rows.buckets| <= 0x20_0000
            && (t'.rowsCount + 1) * 4 < TWO_31 && |t'.rows.buckets| * 3 < TWO_31
            && (Light(t) && AlwaysGrows(ops) ==> Light(t'))
    decreases |ops|
  {
    RunSound(t, ops);
    if ops != [] {
      StepKeeps(t, ops[0]);
      if Light(t) && AlwaysGrows(ops) {
        StepKeepsLight(t, ops[0]);
      }
      RunLoad(Step(t, ops[0]).0, ops[1..]);
    }
  }
}
