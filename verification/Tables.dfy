/**
 * A table: schema, rows, counters and indexes, with the operations that change it
 * as functions on values. Allocation failures of the bucket array and of index
 * rebuilds are inputs (`growOk`, `lost`).
 */
module Tables {
  import opened Values
  import opened RowMap
  import FieldIndex

  const MAX_ROW_CAPACITY: int := 1048576
  const INITIAL_ROW_CAPACITY: nat := 16

  datatype Index = Disabled | Enabled(buckets: FieldIndex.Buckets)

  datatype Table = Table(
    name: string,
    fields: seq<Field>,
    rows: RowMap,
    rowsCount: int,
    nextKey: int,
    indexes: seq<Index>)

  const KEY_FIELD: Field := Field("key", Scalar(KInt))

  function Create(hash: int -> nat, name: string, userFields: seq<Field>): Table {
    Table(name, [KEY_FIELD] + userFields, Empty(hash, INITIAL_ROW_CAPACITY), 0, 1,
          seq(|userFields| + 1, _ => Disabled))
  }

  function Order(t: Table): Chain {
    Flatten(t.rows.buckets)
  }

  // ---- What every reachable table satisfies ----

  predicate RowOk(fields: seq<Field>, n: Node) {
    && |n.row.values| == |fields| > 0
    && n.row.values[0] == IntV(n.key)
    && IsI64(n.row.created) && IsI64(n.row.updated)
    && forall f :: 0 <= f < |fields| ==> Typed(n.row.values[f], fields[f].ty)
  }

  ghost predicate RowsOk(fields: seq<Field>, nodes: Chain) {
    forall i :: 0 <= i < |nodes| ==> RowOk(fields, nodes[i])
  }

  predicate SchemaOk(fields: seq<Field>) {
    |fields| >= 2 && fields[0] == KEY_FIELD
  }

  ghost predicate KeysBelow(m: map<int, Row>, bound: int) {
    forall k :: k in m ==> 0 <= k < bound
  }

  ghost predicate DoublingOf16(n: nat) {
    n == 16 || (n > 16 && n % 2 == 0 && DoublingOf16(n / 2))
  }

  /** Rows, counters and index slots agree; indexes may be stale. */
  ghost predicate Sound(t: Table) {
    && SchemaOk(t.fields)
    && t.rows.Valid()
    && t.rowsCount == |t.rows.Contents()| <= MAX_ROW_CAPACITY
    && 1 <= t.nextKey < TWO_31 && KeysBelow(t.rows.Contents(), t.nextKey)
    && RowsOk(t.fields, Order(t))
    && |t.indexes| == |t.fields|
    && (forall f :: 0 <= f < |t.indexes| && t.indexes[f].Enabled? ==>
          t.fields[f].ty.Scalar? && |t.indexes[f].buckets| == INDEX_BUCKETS)
    && DoublingOf16(|t.rows.buckets|) && |t.rows.buckets| <= 0x20_0000
  }

  /** Every enabled index is the one a rebuild over the current rows would give. */
  ghost predicate Current(t: Table)
    requires Sound(t)
  {
    forall f :: 0 <= f < |t.indexes| && t.indexes[f].Enabled? ==> IndexCurrent(t, f)
  }

  ghost predicate IndexCurrent(t: Table, f: nat)
    requires Sound(t) && f < |t.indexes| && t.indexes[f].Enabled?
  {
    RowsIndexable(t.fields, Order(t), f);
    t.indexes[f].buckets == FieldIndex.Build(Order(t), f, t.fields[f].ty.kind)
  }

  lemma {:induction false} RowsIndexable(fields: seq<Field>, nodes: Chain, f: nat)
    requires RowsOk(fields, nodes) && f < |fields| && fields[f].ty.Scalar?
    ensures FieldIndex.AllIndexable(nodes, f, fields[f].ty.kind)
  {
    forall i | 0 <= i < |nodes|
      ensures FieldIndex.Indexable(nodes[i], f, fields[f].ty.kind)
    {
      assert RowOk(fields, nodes[i]);
    }
  }

  // ---- Indexes ----

  /** The index of one column rebuilt, or nothing if the rows cannot be indexed on it. */
  function BuildIndex(fields: seq<Field>, nodes: Chain, f: nat): Index
    requires f < |fields|
  {
    if fields[f].ty.Scalar? && FieldIndex.AllIndexable(nodes, f, fields[f].ty.kind)
    then Enabled(FieldIndex.Build(nodes, f, fields[f].ty.kind))
    else Disabled
  }

  /** Every enabled index rebuilt; the ones whose rebuild fails are disabled. */
  function RebuildEnabled(t: Table, lost: set<nat>): Table
    requires |t.indexes| == |t.fields|
  {
    t.(indexes := seq(|t.indexes|, f requires 0 <= f < |t.indexes| =>
      if t.indexes[f].Disabled? || f in lost then Disabled else BuildIndex(t.fields, Order(t), f)))
  }

  /** CREATE_INDEX: result code and the table afterwards. */
  function CreateIndex(t: Table, f: int, allocOk: bool): (Table, int)
    requires |t.indexes| == |t.fields|
  {
    if f < 0 || f >= |t.fields| then (t, -1)
    else if t.fields[f].ty.Array? then (t, -1)
    else if t.indexes[f].Enabled? then (t, -2)
    else if !allocOk then (t, -3)
    else (t.(indexes := t.indexes[f := BuildIndex(t.fields, Order(t), f)]), 0)
  }

  // ---- Rows ----

  /** The key an ADD stores under: negative keys ask for the next automatic one. */
  function ActualKey(t: Table, key: int): int {
    if key < 0 then t.nextKey else key
  }

  /** The key counter after an ADD, accepted or rejected as a duplicate. */
  function Counted(t: Table, key: int): Table {
    t.(nextKey := if ActualKey(t, key) >= t.nextKey then ActualKey(t, key) + 1 else t.nextKey)
  }

  /** The row an ADD stores: its key in cell 0, then the values. */
  function NewRow(t: Table, key: int, values: seq<Data>, now: int): Row {
    Row([IntV(ActualKey(t, key))] + values, now, now)
  }

  /** The table with the new row stored and indexes not yet rebuilt. */
  function Inserted(t: Table, key: int, row: Row, growOk: bool): Table
    requires |t.rows.buckets| > 0
  {
    Counted(t, key).(rows := t.rows.Insert(ActualKey(t, key), row, t.rowsCount + 1, growOk),
                     rowsCount := t.rowsCount + 1)
  }

  /** ADD: the table afterwards and the result code. A rejected duplicate still advances the counter. */
  function AddRow(t: Table, key: int, values: seq<Data>, now: int, growOk: bool, lost: set<nat>): (r: (Table, int))
    requires |t.rows.buckets| > 0 && |t.indexes| == |t.fields|
    ensures |r.0.rows.buckets| > 0 && |r.0.indexes| == |r.0.fields| && r.0.fields == t.fields
  {
    if |values| != |t.fields| - 1 then (t, -2)
    else if t.rowsCount >= MAX_ROW_CAPACITY then (t, -3)
    else if t.rows.Find(ActualKey(t, key)).Some? then (Counted(t, key), -5)
    else (RebuildEnabled(Inserted(t, key, NewRow(t, key, values, now), growOk), lost), 0)
  }

  /** DEL. */
  function DeleteRow(t: Table, key: int, lost: set<nat>): (Table, int)
    requires |t.rows.buckets| > 0 && |t.indexes| == |t.fields|
  {
    if t.rows.Find(key).None? then (t, -2)
    else (RebuildEnabled(t.(rows := t.rows.Remove(key), rowsCount := t.rowsCount - 1), lost), 0)
  }

  /** The update of this field is an append to an array that is already full. */
  predicate Blocked(cell: Data, value: Data, ignored: bool, ty: FieldType) {
    !ignored && ty.Array? && value.AppendV? && |Elements(cell)| >= MAX_ARRAY_LENGTH
  }

  /** One field of an update: skip, append, or replace. */
  function UpdatedCell(cell: Data, value: Data, ignored: bool, ty: FieldType): Data {
    if ignored then cell
    else if ty.Array? && value.AppendV? then ArrayV(Elements(cell) + [value.elem])
    else value
  }

  /** The update loop from field i on: the cells it leaves behind, and whether it ran to the end. */
  function UpdateCells(fields: seq<Field>, cells: seq<Data>, values: seq<Data>, ignore: seq<bool>, i: nat)
    : (r: (seq<Data>, bool))
    requires |fields| == |cells| == |values| + 1 == |ignore| + 1 && i <= |values|
    ensures |r.0| == |cells|
    decreases |values| - i
  {
    if i == |values| then (cells, true)
    else if Blocked(cells[i + 1], values[i], ignore[i], fields[i + 1].ty) then (cells, false)
    else
      var cell := UpdatedCell(cells[i + 1], values[i], ignore[i], fields[i + 1].ty);
      UpdateCells(fields, cells[i + 1 := cell], values, ignore, i + 1)
  }

  /** UP: a blocked append stops the loop with the earlier fields written and no index rebuilt. */
  function UpdateRow(t: Table, key: int, values: seq<Data>, ignore: seq<bool>, now: int, lost: set<nat>): (Table, int)
    requires |t.rows.buckets| > 0 && |t.indexes| == |t.fields| && |ignore| == |values|
  {
    if |values| != |t.fields| - 1 then (t, -2)
    else match t.rows.Find(key)
      case None => (t, -3)
      case Some(row) =>
        if |row.values| != |t.fields| then (t, -3)
        else
          var (cells, done) := UpdateCells(t.fields, row.values, values, ignore, 0);
          var t1 := t.(rows := t.rows.Put(key, row.(values := cells)));
          if !done then (t1, -5)
          else
            var t2 := RebuildEnabled(t1, lost);
            (t2.(rows := t2.rows.Put(key, row.(values := cells, updated := now))), 0)
  }

  /** Overwrites the timestamps of a stored row. */
  function SetTimestamps(t: Table, key: int, created: int, updated: int): Table
    requires |t.rows.buckets| > 0
  {
    match t.rows.Find(key)
    case None => t
    case Some(row) => t.(rows := t.rows.Put(key, row.(created := created, updated := updated)))
  }

  // ---- SEARCH ----

  /** The full scan: the matching rows in iteration order. */
  function Scan(nodes: Chain, f: nat, v: Data, ty: FieldType): seq<Row> {
    if nodes == [] then []
    else (if f < |nodes[0].row.values| && CompareValues(nodes[0].row.values[f], v, ty) then [nodes[0].row] else [])
         + Scan(nodes[1..], f, v, ty)
  }

  /** The rows stored under a list of keys. */
  function RowsOf(m: RowMap, keys: seq<int>): seq<Row>
    requires |m.buckets| > 0
  {
    if keys == [] then []
    else (match m.Find(keys[0]) case Some(row) => [row] case None => []) + RowsOf(m, keys[1..])
  }

  /** SEARCH on a column: through its index when it has one, by full scan otherwise. */
  function Search(t: Table, f: nat, v: Data): seq<Row>
    requires |t.rows.buckets| > 0 && f < |t.fields| && |t.indexes| == |t.fields|
  {
    if t.indexes[f].Enabled? && |t.indexes[f].buckets| == INDEX_BUCKETS
    then RowsOf(t.rows, FieldIndex.KeysOf(t.indexes[f].buckets, v, t.fields[f].ty.kind))
    else Scan(Order(t), f, v, t.fields[f].ty)
  }

  // ---- Runs ----

  datatype Op =
    | Add(key: int, values: seq<Data>, now: int, growOk: bool, lost: set<nat>)
    | Up(key: int, values: seq<Data>, ignore: seq<bool>, now: int, lost: set<nat>)
    | Del(key: int, lost: set<nat>)
    | Index(f: int, allocOk: bool)

  function Step(t: Table, op: Op): (Table, int)
    requires |t.rows.buckets| > 0 && |t.indexes| == |t.fields| && (op.Up? ==> |op.ignore| == |op.values|)
  {
    match op
    case Add(key, values, now, growOk, lost) => AddRow(t, key, values, now, growOk, lost)
    case Up(key, values, ignore, now, lost) => UpdateRow(t, key, values, ignore, now, lost)
    case Del(key, lost) => DeleteRow(t, key, lost)
    case Index(f, allocOk) => CreateIndex(t, f, allocOk)
  }

  predicate ValuesTyped(fields: seq<Field>, values: seq<Data>) {
    |values| == |fields| - 1 ==> forall i :: 0 <= i < |values| ==> Typed(values[i], fields[i + 1].ty)
  }

  /**
   * The caller's side: values fit their columns, keys leave room for the 32-bit
   * counter, timestamps fit 64 bits.
   */
  predicate Admissible(t: Table, op: Op) {
    match op
    case Add(key, values, now, _, _) =>
      ValuesTyped(t.fields, values) && IsI64(now) && ActualKey(t, key) < TWO_31 - 1
    case Up(_, values, ignore, now, _) =>
      && IsI64(now) && |ignore| == |values|
      && (|values| == |t.fields| - 1 ==>
            forall i :: 0 <= i < |values| && !ignore[i] ==> Typed(values[i], t.fields[i + 1].ty))
    case Del(_, _) => true
    case Index(_, _) => true
  }
}
