/** Reading back the cells, rows and schema of one table. */
module SnapshotRows {
  import opened Values
  import opened RowMap
  import opened Tables
  import opened TableRuns
  import opened Bytes
  import opened Spans
  import opened Snapshot

  /** What a cell reads back as: an append literal was stored with no elements. */
  function Normal(d: Data): Data {
    if d.AppendV? then ArrayV([]) else d
  }

  function NormalCells(cells: seq<Data>): (r: seq<Data>)
    ensures |r| == |cells|
  {
    seq(|cells|, i requires 0 <= i < |cells| => Normal(cells[i]))
  }

  function NormalRow(row: Row): Row {
    Row(NormalCells(row.values), row.created, row.updated)
  }

  lemma {:induction false} MoveHead<T>(acc: seq<T>, rest: seq<T>)
    requires rest != []
    ensures acc + [rest[0]] + rest[1..] == acc + rest
  {
  }

  // ---- Cells ----

  lemma {:induction false} ScalarAt(s: string, p: nat, d: Data, k: Kind)
    requires HasKind(d, k) && HasAt(s, p, EncodeScalar(d, k))
    ensures DecodeScalar(s, p, k) == Got(d, p + |EncodeScalar(d, k)|)
  {
    Widths();
    match k
    case KInt => ReadI32At(s, p, d.i);
    case KDouble => ReadUintAt(s, p, d.bits, 8);
    case KBool => ReadUintAt(s, p, if d.b then 1 else 0, 1);
    case KString =>
      if d.NullStr? {
        ReadUintAt(s, p, NULL_STRING, 4);
      } else {
        HasAtSplit(s, p, Le(|d.s|, 4), d.s);
        ReadUintAt(s, p, |d.s|, 4);
        TakeAt(s, p + 4, d.s);
        CStringOf(d.s);
      }
  }

  lemma {:induction false} ScalarsHead(s: string, p: nat, ds: seq<Data>, k: Kind)
    requires ds != [] && HasKind(ds[0], k) && HasAt(s, p, EncodeScalars(ds, k))
    ensures var q := p + |EncodeScalar(ds[0], k)|;
            && DecodeScalar(s, p, k) == Got(ds[0], q)
            && HasAt(s, q, EncodeScalars(ds[1..], k))
            && p + |EncodeScalars(ds, k)| == q + |EncodeScalars(ds[1..], k)|
  {
    hide EncodeScalar, DecodeScalar, HasAt;
    HasAtSplit(s, p, EncodeScalar(ds[0], k), EncodeScalars(ds[1..], k));
    ScalarAt(s, p, ds[0], k);
  }

  lemma {:induction false} ScalarsAt(s: string, p: nat, ds: seq<Data>, k: Kind, acc: seq<Data>)
    requires forall i :: 0 <= i < |ds| ==> HasKind(ds[i], k)
    requires HasAt(s, p, EncodeScalars(ds, k))
    ensures DecodeScalars(s, p, k, |ds|, acc) == Got(acc + ds, p + |EncodeScalars(ds, k)|)
    decreases |ds|
  {
    hide EncodeScalar, DecodeScalar, HasAt;
    if ds == [] {
      assert acc + ds == acc;
    } else {
      ScalarsHead(s, p, ds, k);
      ScalarsAt(s, p + |EncodeScalar(ds[0], k)|, ds[1..], k, acc + [ds[0]]);
      MoveHead(acc, ds);
    }
  }

  lemma {:induction false} CellAt(s: string, p: nat, d: Data, ty: FieldType)
    requires Typed(d, ty) && HasAt(s, p, EncodeCell(d, ty))
    ensures DecodeCell(s, p, ty) == Got(Normal(d), p + |EncodeCell(d, ty)|)
    ensures Typed(Normal(d), ty)
  {
    hide HasAt, Le, FromLe, EncodeScalar, DecodeScalar, EncodeScalars, DecodeScalars;
    match ty
    case Scalar(k) => ScalarAt(s, p, d, k);
    case Array(k) =>
      Widths();
      var ds := Elements(d);
      HasAtSplit(s, p, Le(|ds|, 4), EncodeScalars(ds, k));
      ReadUintAt(s, p, |ds|, 4);
      ScalarsAt(s, p + 4, ds, k, []);
      assert [] + ds == ds;
  }

  lemma {:induction false} CellsHead(s: string, p: nat, fields: seq<Field>, cells: seq<Data>)
    requires |fields| == |cells| > 0 && Typed(cells[0], fields[0].ty) && HasAt(s, p, EncodeCells(fields, cells))
    ensures var q := p + |EncodeCell(cells[0], fields[0].ty)|;
            && DecodeCell(s, p, fields[0].ty) == Got(Normal(cells[0]), q)
            && HasAt(s, q, EncodeCells(fields[1..], cells[1..]))
            && p + |EncodeCells(fields, cells)| == q + |EncodeCells(fields[1..], cells[1..])|
  {
    hide EncodeCell, DecodeCell, HasAt;
    HasAtSplit(s, p, EncodeCell(cells[0], fields[0].ty), EncodeCells(fields[1..], cells[1..]));
    CellAt(s, p, cells[0], fields[0].ty);
  }

  lemma {:induction false} CellsAt(s: string, p: nat, fields: seq<Field>, cells: seq<Data>, acc: seq<Data>)
    requires |fields| == |cells| && forall i :: 0 <= i < |cells| ==> Typed(cells[i], fields[i].ty)
    requires HasAt(s, p, EncodeCells(fields, cells))
    ensures DecodeCells(s, p, fields, acc) == Got(acc + NormalCells(cells), p + |EncodeCells(fields, cells)|)
    decreases |fields|
  {
    hide EncodeCell, DecodeCell, HasAt, NormalCells;
    if fields == [] {
      assert |NormalCells(cells)| == 0;
      assert acc + NormalCells(cells) == acc;
    } else {
      CellsHead(s, p, fields, cells);
      CellsAt(s, p + |EncodeCell(cells[0], fields[0].ty)|, fields[1..], cells[1..], acc + [Normal(cells[0])]);
      NormalCellsHead(cells);
      MoveHead(acc, NormalCells(cells));
    }
  }

  lemma {:induction false} NormalCellsHead(cells: seq<Data>)
    requires cells != []
    ensures NormalCells(cells)[0] == Normal(cells[0]) && NormalCells(cells)[1..] == NormalCells(cells[1..])
  {
  }

  // ---- Rows ----

  ghost predicate NoIndexes(t: Table) {
    forall f :: 0 <= f < |t.indexes| ==> t.indexes[f] == Disabled
  }

  /** The tables before and after one row: the row added, the counter past its key, nothing else. */
  ghost predicate Extended(t: Table, t': Table, key: int, row: Row) {
    && Sound(t) && Sound(t') && t'.fields == t.fields && t'.name == t.name
    && t'.rows.Contents() == t.rows.Contents()[key := row]
    && t'.rowsCount == t.rowsCount + 1
    && t'.nextKey == (if key >= t.nextKey then key + 1 else t.nextKey)
    && NoIndexes(t')
  }

  /** The stored cells, without the key, fit their columns once read back. */
  lemma {:induction false} RestoredCells(fields: seq<Field>, n: Node)
    requires SchemaOk(fields) && RowOk(fields, n)
    ensures var cells := NormalCells(n.row.values[1..]);
            && ValuesTyped(fields, cells)
            && [IntV(n.key)] + cells == NormalCells(n.row.values)
    ensures forall i :: 0 <= i < |fields| - 1 ==> Typed(n.row.values[1..][i], fields[1..][i].ty)
  {
    forall f | 0 <= f < |fields|
      ensures Typed(Normal(n.row.values[f]), fields[f].ty)
    {
      assert Typed(n.row.values[f], fields[f].ty);
    }
  }

  lemma {:induction false} AddCounters(t: Table, key: int, cells: seq<Data>, growOk: bool)
    requires Usable(t) && NoIndexes(t) && AddRow(t, key, cells, 0, growOk, {}).1 == 0
    ensures var t1 := AddRow(t, key, cells, 0, growOk, {}).0;
            t1.nextKey == Counted(t, key).nextKey && t1.rowsCount == t.rowsCount + 1 && NoIndexes(t1) && Usable(t1)
  {
  }

  /** Inserting a read row and restoring its timestamps stores exactly the saved row. */
  lemma {:induction false} InsertRestored(t: Table, n: Node, growOk: bool)
    requires Sound(t) && NoIndexes(t) && RowOk(t.fields, n) && t.rowsCount < MAX_ROW_CAPACITY
    requires 0 <= n.key < TWO_31 - 1 && n.key !in t.rows.Contents()
    ensures var cells := NormalCells(n.row.values[1..]);
            var (t1, code) := AddRow(t, n.key, cells, 0, growOk, {});
            && code == 0 && Usable(t1)
            && Extended(t, SetTimestamps(t1, n.key, n.row.created, n.row.updated), n.key, NormalRow(n.row))
  {
    hide AddRow, NormalCells;
    var cells := NormalCells(n.row.values[1..]);
    RestoredCells(t.fields, n);
    AddEffect(t, n.key, cells, 0, growOk, {});
    AddCounters(t, n.key, cells, growOk);
    var t1 := AddRow(t, n.key, cells, 0, growOk, {}).0;
    AddedRowOk(t, n.key, cells, 0);
    StampRestored(t1, n);
  }

  lemma {:induction false} StampRestored(t1: Table, n: Node)
    requires Sound(t1) && n.key in t1.rows.Contents() && RowOk(t1.fields, Node(n.key, NormalRow(n.row)))
    requires t1.rows.Contents()[n.key].values == NormalRow(n.row).values
    ensures var t2 := SetTimestamps(t1, n.key, n.row.created, n.row.updated);
            && Sound(t2) && t2 == t1.(rows := t2.rows)
            && t2.rows.Contents() == t1.rows.Contents()[n.key := NormalRow(n.row)]
  {
    hide NormalCells;
    FindRefines(t1.rows, n.key);
    SoundSplits(t1);
    PutKeepsSound(t1, n.key, NormalRow(n.row));
  }

  lemma {:induction false} RowAt(s: string, p: nat, t: Table, n: Node, growOk: bool)
    requires Sound(t) && NoIndexes(t) && RowOk(t.fields, n) && t.rowsCount < MAX_ROW_CAPACITY
    requires 0 <= n.key < TWO_31 - 1 && n.key !in t.rows.Contents()
    requires HasAt(s, p, EncodeRow(t.fields, n))
    ensures var r := LoadRow(s, p, t, growOk);
            r.Got? && r.pos == p + |EncodeRow(t.fields, n)| && Extended(t, r.value, n.key, NormalRow(n.row))
  {
    hide HasAt, EncodeCells, DecodeCells, Extended, NormalCells, AddRow, SetTimestamps, Typed, ReadInt, LeSigned;
    var cells := n.row.values[1..];
    var e := EncodeCells(t.fields[1..], cells);
    var stamps := LeSigned(n.row.created, 8) + LeSigned(n.row.updated, 8);
    HasAtSplit(s, p, LeSigned(n.key, 4), e + stamps);
    HasAtSplit(s, p + 4, e, stamps);
    HasAtSplit(s, p + 4 + |e|, LeSigned(n.row.created, 8), LeSigned(n.row.updated, 8));
    ReadI32At(s, p, n.key);
    RestoredCells(t.fields, n);
    CellsAt(s, p + 4, t.fields[1..], cells, []);
    assert [] + NormalCells(cells) == NormalCells(cells);
    ReadI64At(s, p + 4 + |e|, n.row.created);
    ReadI64At(s, p + 4 + |e| + 8, n.row.updated);
    InsertRestored(t, n, growOk);
  }

  /** The map of the nodes as it reads back. */
  ghost function NormalMap(m: map<int, Row>): map<int, Row> {
    map k | k in m :: NormalRow(m[k])
  }

  /** The key counter after nodes are added one by one. */
  function CounterAfter(start: int, nodes: Chain): int
    decreases |nodes|
  {
    if nodes == [] then start
    else CounterAfter(if nodes[0].key >= start then nodes[0].key + 1 else start, nodes[1..])
  }

  ghost predicate Loadable(t: Table, nodes: Chain) {
    && Sound(t) && NoIndexes(t) && RowsOk(t.fields, nodes) && Distinct(nodes)
    && t.rowsCount + |nodes| <= MAX_ROW_CAPACITY
    && ToMap(nodes).Keys !! t.rows.Contents().Keys
    && forall i :: 0 <= i < |nodes| ==> 0 <= nodes[i].key < TWO_31 - 1
  }

  ghost predicate RowsRestored(t: Table, t': Table, nodes: Chain)
    requires Sound(t)
  {
    && Sound(t') && t'.fields == t.fields && t'.name == t.name && NoIndexes(t')
    && t'.rows.Contents() == t.rows.Contents() + NormalMap(ToMap(nodes))
    && t'.rowsCount == t.rowsCount + |nodes|
    && t'.nextKey == CounterAfter(t.nextKey, nodes)
  }

  lemma {:induction false} LoadableStep(t: Table, t1: Table, nodes: Chain)
    requires nodes != [] && Loadable(t, nodes) && Extended(t, t1, nodes[0].key, NormalRow(nodes[0].row))
    ensures Loadable(t1, nodes[1..])
  {
  }

  lemma {:induction false} RestoredNone(t: Table)
    requires Sound(t) && NoIndexes(t)
    ensures RowsRestored(t, t, [])
  {
    assert t.rows.Contents() + NormalMap(ToMap([])) == t.rows.Contents();
  }

  lemma {:induction false} RestoredStep(t: Table, t1: Table, t': Table, nodes: Chain)
    requires nodes != [] && Loadable(t, nodes) && Extended(t, t1, nodes[0].key, NormalRow(nodes[0].row))
    requires RowsRestored(t1, t', nodes[1..])
    ensures RowsRestored(t, t', nodes)
  {
    hide NormalMap, RowOk, NormalRow, DoublingOf16;
    NormalMapAdd(t.rows.Contents(), ToMap(nodes[1..]), nodes[0].key, nodes[0].row);
  }

  lemma {:induction false} NormalMapAdd(m: map<int, Row>, rest: map<int, Row>, key: int, row: Row)
    requires key !in m && key !in rest
    ensures m[key := NormalRow(row)] + NormalMap(rest) == m + NormalMap(rest[key := row])
  {
  }

  lemma {:induction false} RowsHead(s: string, p: nat, fields: seq<Field>, nodes: Chain)
    requires nodes != [] && RowsOk(fields, nodes) && HasAt(s, p, EncodeRows(fields, nodes))
    ensures RowOk(fields, nodes[0]) && RowsOk(fields, nodes[1..])
    ensures var q := p + |EncodeRow(fields, nodes[0])|;
            && HasAt(s, p, EncodeRow(fields, nodes[0]))
            && HasAt(s, q, EncodeRows(fields, nodes[1..]))
            && p + |EncodeRows(fields, nodes)| == q + |EncodeRows(fields, nodes[1..])|
  {
    hide EncodeRow, HasAt, RowOk;
    HasAtSplit(s, p, EncodeRow(fields, nodes[0]), EncodeRows(fields, nodes[1..]));
  }

  lemma {:induction false} FirstRowAt(s: string, p: nat, t: Table, nodes: Chain, growOk: bool)
    requires nodes != [] && Loadable(t, nodes) && HasAt(s, p, EncodeRows(t.fields, nodes))
    ensures var r := LoadRow(s, p, t, growOk);
            && r.Got? && Loadable(r.value, nodes[1..]) && r.value.fields == t.fields
            && Extended(t, r.value, nodes[0].key, NormalRow(nodes[0].row))
            && HasAt(s, r.pos, EncodeRows(t.fields, nodes[1..]))
            && p + |EncodeRows(t.fields, nodes)| == r.pos + |EncodeRows(t.fields, nodes[1..])|
  {
    hide EncodeRow, EncodeRows, HasAt, LoadRow, Extended;
    RowsHead(s, p, t.fields, nodes);
    assert nodes[0].key in ToMap(nodes);
    RowAt(s, p, t, nodes[0], growOk);
    LoadableStep(t, LoadRow(s, p, t, growOk).value, nodes);
  }

  lemma {:induction false} RowsAt(s: string, p: nat, t: Table, nodes: Chain, grow: nat -> bool)
    requires Loadable(t, nodes) && HasAt(s, p, EncodeRows(t.fields, nodes))
    ensures var r := LoadRows(s, p, t, |nodes|, grow);
            r.Got? && r.pos == p + |EncodeRows(t.fields, nodes)| && RowsRestored(t, r.value, nodes)
    decreases |nodes|
  {
    hide LoadRow, EncodeRow, HasAt, Extended, RowsRestored;
    if nodes == [] {
      RestoredNone(t);
    } else {
      FirstRowAt(s, p, t, nodes, grow(|nodes|));
      var r1 := LoadRow(s, p, t, grow(|nodes|));
      RowsAt(s, r1.pos, r1.value, nodes[1..], grow);
      RestoredStep(t, r1.value, LoadRows(s, r1.pos, r1.value, |nodes| - 1, grow).value, nodes);
    }
  }

  // ---- Schema ----

  predicate NameOk(name: string, limit: nat) {
    |name| < limit && '\0' !in name
  }

  lemma {:induction false} NameAt(s: string, p: nat, name: string, limit: nat)
    requires NameOk(name, limit) && limit <= 0x1_0000 && HasAt(s, p, Le(|name|, 2)) && HasAt(s, p + 2, name)
    ensures DecodeName(s, p, limit) == Got(name, p + 2 + |name|)
  {
    Widths();
    ReadUintAt(s, p, |name|, 2);
    TakeAt(s, p + 2, name);
    CStringOf(name);
  }

  lemma {:induction false} FieldAt(s: string, p: nat, f: Field)
    requires NameOk(f.name, MAX_FIELD_NAME_LENGTH) && HasAt(s, p, EncodeField(f))
    ensures DecodeField(s, p) == Got(f, p + |EncodeField(f)|)
  {
    Widths();
    HasAtSplit(s, p, Le(|f.name|, 2), f.name + Le(TypeCode(f.ty), 1));
    HasAtSplit(s, p + 2, f.name, Le(TypeCode(f.ty), 1));
    NameAt(s, p, f.name, MAX_FIELD_NAME_LENGTH);
    ReadUintAt(s, p + 2 + |f.name|, TypeCode(f.ty), 1);
  }

  lemma {:induction false} FieldsHead(s: string, p: nat, fields: seq<Field>)
    requires fields != [] && HasAt(s, p, EncodeFields(fields))
    ensures var q := p + |EncodeField(fields[0])|;
            && HasAt(s, p, EncodeField(fields[0]))
            && HasAt(s, q, EncodeFields(fields[1..]))
            && p + |EncodeFields(fields)| == q + |EncodeFields(fields[1..])|
  {
    hide EncodeField, HasAt;
    HasAtSplit(s, p, EncodeField(fields[0]), EncodeFields(fields[1..]));
  }

  lemma {:induction false} FieldsAt(s: string, p: nat, fields: seq<Field>, acc: seq<Field>)
    requires forall i :: 0 <= i < |fields| ==> NameOk(fields[i].name, MAX_FIELD_NAME_LENGTH)
    requires HasAt(s, p, EncodeFields(fields))
    ensures DecodeFields(s, p, |fields|, acc) == Got(acc + fields, p + |EncodeFields(fields)|)
    decreases |fields|
  {
    hide EncodeField, DecodeField, HasAt;
    if fields == [] {
      assert acc + fields == acc;
    } else {
      FieldsHead(s, p, fields);
      FieldAt(s, p, fields[0]);
      FieldsAt(s, p + |EncodeField(fields[0])|, fields[1..], acc + [fields[0]]);
      MoveHead(acc, fields);
    }
  }
}
