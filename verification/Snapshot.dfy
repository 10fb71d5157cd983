/**
 * The snapshot file format: what saving writes and what loading reads back.
 * Loading is a sequence of reads at an advancing position; any failed read
 * rejects the whole file.
 */
module Snapshot {
  import opened Values
  import opened RowMap
  import opened Tables
  import opened Bytes
  import opened Spans

  const MAGIC: string := "PDBSNAP"
  const VERSION: nat := 4
  const NULL_STRING: nat := 0xFFFF_FFFF
  const MAX_DB_NAME_LENGTH: nat := 64
  const MAX_FIELD_NAME_LENGTH: nat := 64
  const MAX_DB_COUNT: nat := 64
  const AUTH_MAX_KEYS: nat := 64
  const AUTH_KEY_NAME_MAX: nat := 64
  const HASH_BYTES: nat := 128

  datatype AuthKey = AuthKey(name: string, hash: string, role: nat)

  // ---- Writing ----

  function EncodeScalar(d: Data, k: Kind): string {
    match k
    case KInt => LeSigned(if d.IntV? then d.i else 0, 4)
    case KDouble => Le(if d.DoubleV? && d.bits >= 0 then d.bits else 0, 8)
    case KBool => Le(if d.BoolV? && d.b then 1 else 0, 1)
    case KString => if d.StrV? then Le(|d.s|, 4) + d.s else Le(NULL_STRING, 4)
  }

  function EncodeScalars(ds: seq<Data>, k: Kind): string {
    if ds == [] then [] else EncodeScalar(ds[0], k) + EncodeScalars(ds[1..], k)
  }

  /** A cell: a scalar, or an element count and that many scalars. */
  function EncodeCell(d: Data, ty: FieldType): string {
    match ty
    case Scalar(k) => EncodeScalar(d, k)
    case Array(k) => Le(|Elements(d)|, 4) + EncodeScalars(Elements(d), k)
  }

  function EncodeCells(fields: seq<Field>, cells: seq<Data>): string
    requires |fields| == |cells|
  {
    if fields == [] then [] else EncodeCell(cells[0], fields[0].ty) + EncodeCells(fields[1..], cells[1..])
  }

  /** A row: its key, its cells without the key, its two timestamps. */
  function EncodeRow(fields: seq<Field>, n: Node): string
    requires RowOk(fields, n)
  {
    LeSigned(n.row.values[0].i, 4)
    + (EncodeCells(fields[1..], n.row.values[1..]) + (LeSigned(n.row.created, 8) + LeSigned(n.row.updated, 8)))
  }

  ghost function EncodeRows(fields: seq<Field>, nodes: Chain): string
    requires RowsOk(fields, nodes)
  {
    if nodes == [] then [] else EncodeRow(fields, nodes[0]) + EncodeRows(fields, nodes[1..])
  }

  function TypeCode(ty: FieldType): nat {
    var k := match ty.kind case KInt => 0 case KDouble => 1 case KBool => 2 case KString => 3;
    if ty.Scalar? then k else 4 + k
  }

  function EncodeField(f: Field): string {
    Le(|f.name|, 2) + (f.name + Le(TypeCode(f.ty), 1))
  }

  function EncodeFields(fields: seq<Field>): string {
    if fields == [] then [] else EncodeField(fields[0]) + EncodeFields(fields[1..])
  }

  ghost function EncodeTable(t: Table): string
    requires Sound(t)
  {
    Le(|t.name|, 2) + (t.name + (Le(|t.fields| - 1, 4) + (EncodeFields(t.fields[1..])
    + (Le(t.rowsCount, 4) + EncodeRows(t.fields, Order(t))))))
  }

  ghost predicate AllSound(tables: seq<Table>) {
    forall i :: 0 <= i < |tables| ==> Sound(tables[i])
  }

  ghost function EncodeTables(tables: seq<Table>): string
    requires AllSound(tables)
  {
    if tables == [] then [] else EncodeTable(tables[0]) + EncodeTables(tables[1..])
  }

  function EncodeKey(k: AuthKey): string {
    Le(|k.name|, 2) + (k.name + (Le(k.role, 1) + k.hash))
  }

  function EncodeKeys(keys: seq<AuthKey>): string {
    if keys == [] then [] else EncodeKey(keys[0]) + EncodeKeys(keys[1..])
  }

  /** The whole file. */
  ghost function Save(tables: seq<Table>, keys: seq<AuthKey>): string
    requires AllSound(tables)
  {
    MAGIC + (Le(VERSION, 4) + (Le(|tables|, 4) + (EncodeTables(tables) + (Le(|keys|, 4) + EncodeKeys(keys)))))
  }

  // ---- Reading ----

  function DecodeScalar(s: string, p: nat, k: Kind): (r: Read<Data>)
    ensures r.Got? ==> p < r.pos <= |s|
  {
    match k
    case KInt => (var (i, q) :- ReadInt(s, p, 4); Got(IntV(i), q))
    case KDouble => (var (n, q) :- ReadUint(s, p, 8); Got(DoubleV(n), q))
    case KBool => (var (n, q) :- ReadUint(s, p, 1); Got(BoolV(n != 0), q))
    case KString =>
      var (n, q) :- ReadUint(s, p, 4);
      if n == NULL_STRING then Got(NullStr, q)
      else
        var (b, q2) :- Take(s, q, n);
        Got(StrV(CString(b)), q2)
  }

  /** The next n scalars, after those already read. */
  function DecodeScalars(s: string, p: nat, k: Kind, n: nat, acc: seq<Data>): (r: Read<seq<Data>>)
    ensures r.Got? ==> p <= r.pos && (p <= |s| ==> r.pos <= |s|)
    decreases n
  {
    if n == 0 then Got(acc, p)
    else
      var (d, q) :- DecodeScalar(s, p, k);
      DecodeScalars(s, q, k, n - 1, acc + [d])
  }

  function DecodeCell(s: string, p: nat, ty: FieldType): (r: Read<Data>)
    ensures r.Got? ==> p < r.pos <= |s|
  {
    match ty
    case Scalar(k) => DecodeScalar(s, p, k)
    case Array(k) =>
      var (n, q) :- ReadUint(s, p, 4);
      if n > MAX_ARRAY_LENGTH then Fail
      else
        var (ds, q2) :- DecodeScalars(s, q, k, n, []);
        Got(ArrayV(ds), q2)
  }

  function DecodeCells(s: string, p: nat, fields: seq<Field>, acc: seq<Data>): (r: Read<seq<Data>>)
    ensures r.Got? ==> p <= r.pos && (p <= |s| ==> r.pos <= |s|)
    decreases |fields|
  {
    if fields == [] then Got(acc, p)
    else
      var (d, q) :- DecodeCell(s, p, fields[0].ty);
      DecodeCells(s, q, fields[1..], acc + [d])
  }

  function TypeOf(code: nat): Option<FieldType> {
    if code > 7 then None
    else
      var k := match code % 4 case 0 => KInt case 1 => KDouble case 2 => KBool case _ => KString;
      Some(if code < 4 then Scalar(k) else Array(k))
  }

  /** A name of bounded length. */
  function DecodeName(s: string, p: nat, limit: nat): (r: Read<string>)
    ensures r.Got? ==> p < r.pos <= |s| && |r.value| < limit
  {
    var (n, q) :- ReadUint(s, p, 2);
    if n >= limit then Fail
    else
      var (b, q2) :- Take(s, q, n);
      Got(CString(b), q2)
  }

  function DecodeField(s: string, p: nat): (r: Read<Field>)
    ensures r.Got? ==> p < r.pos <= |s|
  {
    var (name, q) :- DecodeName(s, p, MAX_FIELD_NAME_LENGTH);
    var (code, q2) :- ReadUint(s, q, 1);
    match TypeOf(code)
    case None => Fail
    case Some(ty) => Got(Field(name, ty), q2)
  }

  function DecodeFields(s: string, p: nat, n: nat, acc: seq<Field>): (r: Read<seq<Field>>)
    ensures r.Got? ==> p <= r.pos && (p <= |s| ==> r.pos <= |s|)
    ensures r.Got? ==> |r.value| == |acc| + n
    decreases n
  {
    if n == 0 then Got(acc, p)
    else
      var (f, q) :- DecodeField(s, p);
      DecodeFields(s, q, n - 1, acc + [f])
  }

  /** The shape every function here needs of a table to work on it. */
  predicate Usable(t: Table) {
    |t.rows.buckets| > 0 && |t.indexes| == |t.fields| >= 1
  }

  /**
   * One row: read, inserted through ADD, then given its saved timestamps. The insertion
   * time is overwritten at once. `growOk` says whether a rehash allocation succeeds.
   */
  function LoadRow(s: string, p: nat, t: Table, growOk: bool): (r: Read<Table>)
    requires Usable(t)
    ensures r.Got? ==> p < r.pos <= |s| && Usable(r.value) && r.value.fields == t.fields
  {
    var (key, q) :- ReadInt(s, p, 4);
    var (cells, q2) :- DecodeCells(s, q, t.fields[1..], []);
    var (t1, code) := AddRow(t, key, cells, 0, growOk, {});
    if code != 0 then Fail
    else
      var (created, q3) :- ReadInt(s, q2, 8);
      var (updated, q4) :- ReadInt(s, q3, 8);
      Got(SetTimestamps(t1, key, created, updated), q4)
  }

  function LoadRows(s: string, p: nat, t: Table, n: nat, grow: nat -> bool): (r: Read<Table>)
    requires Usable(t)
    ensures r.Got? ==> p <= r.pos && (p <= |s| ==> r.pos <= |s|)
    decreases n
  {
    if n == 0 then Got(t, p)
    else
      var (t1, q) :- LoadRow(s, p, t, grow(n));
      LoadRows(s, q, t1, n - 1, grow)
  }

  function FindDb(tables: seq<Table>, name: string): Option<Table> {
    if tables == [] then None else if tables[0].name == name then Some(tables[0]) else FindDb(tables[1..], name)
  }

  /** Registers a table at the head of the list; a taken name or a full list refuses it. */
  function AddDb(tables: seq<Table>, t: Table): (seq<Table>, int) {
    if FindDb(tables, t.name).Some? then (tables, -2)
    else if |tables| >= MAX_DB_COUNT then (tables, -4)
    else ([t] + tables, 0)
  }

  /** One table: schema, registration, then its rows. */
  function LoadTable(s: string, p: nat, tables: seq<Table>, hash: int -> nat, grow: nat -> bool): (r: Read<seq<Table>>)
    ensures r.Got? ==> p < r.pos <= |s|
  {
    var (name, q) :- DecodeName(s, p, MAX_DB_NAME_LENGTH);
    var (n, q2) :- ReadUint(s, q, 4);
    if n == 0 then Fail
    else
      var (fields, q3) :- DecodeFields(s, q2, n, []);
      var t := Create(hash, name, fields);
      if AddDb(tables, t).1 != 0 then Fail
      else
        var (count, q4) :- ReadUint(s, q3, 4);
        var (t1, q5) :- LoadRows(s, q4, t, count, grow);
        Got([t1] + tables, q5)
  }

  function LoadTables(s: string, p: nat, n: nat, tables: seq<Table>, hash: int -> nat, grow: nat -> nat -> bool)
    : (r: Read<seq<Table>>)
    ensures r.Got? ==> p <= r.pos && (p <= |s| ==> r.pos <= |s|)
    decreases n
  {
    if n == 0 then Got(tables, p)
    else
      var (tables1, q) :- LoadTable(s, p, tables, hash, grow(n));
      LoadTables(s, q, n - 1, tables1, hash, grow)
  }

  function DecodeKey(s: string, p: nat): (r: Read<AuthKey>)
    ensures r.Got? ==> p < r.pos <= |s|
  {
    var (n, q) :- ReadUint(s, p, 2);
    if n == 0 || n >= AUTH_KEY_NAME_MAX then Fail
    else
      var (b, q2) :- Take(s, q, n);
      var (role, q3) :- ReadUint(s, q2, 1);
      var (hash, q4) :- Take(s, q3, HASH_BYTES);
      Got(AuthKey(CString(b), hash, role), q4)
  }

  /** The keys read before the first failure stay in the store, so the result carries them either way. */
  function LoadKeys(s: string, p: nat, n: nat, keys: seq<AuthKey>): (r: (Read<()>, seq<AuthKey>))
    ensures r.0.Got? ==> p <= r.0.pos && (p <= |s| ==> r.0.pos <= |s|)
    decreases n
  {
    if n == 0 then (Got((), p), keys)
    else
      match DecodeKey(s, p)
      case Fail => (Fail, keys)
      case Got(k, q) => LoadKeys(s, q, n - 1, keys + [k])
  }

  /** What loading leaves behind: the result code, the tables, the auth keys, and the bytes consumed. */
  datatype Loaded = Loaded(code: int, tables: seq<Table>, keys: seq<AuthKey>, used: nat)

  const REJECTED: Loaded := Loaded(-1, [], [], 0)

  /** Loading into empty storage and an empty key store. */
  function Load(s: string, hash: int -> nat, grow: nat -> nat -> bool): Loaded {
    match Take(s, 0, |MAGIC|)
    case Fail => REJECTED
    case Got(magic, q) =>
      if magic != MAGIC then REJECTED
      else match ReadUint(s, q, 4)
        case Fail => REJECTED
        case Got(version, q2) =>
          if version != VERSION then Loaded(0, [], [], q2)
          else match LoadBody(s, q2, hash, grow)
            case Fail => REJECTED
            case Got(tables, q3) => LoadAuth(s, q3, tables)
  }

  function LoadBody(s: string, p: nat, hash: int -> nat, grow: nat -> nat -> bool): (r: Read<seq<Table>>)
    ensures r.Got? ==> p <= r.pos && (p <= |s| ==> r.pos <= |s|)
  {
    var (n, q) :- ReadUint(s, p, 4);
    LoadTables(s, q, n, [], hash, grow)
  }

  function LoadAuth(s: string, p: nat, tables: seq<Table>): Loaded {
    match ReadUint(s, p, 4)
    case Fail => REJECTED
    case Got(n, q) =>
      if n > AUTH_MAX_KEYS then REJECTED
      else
        var (end, keys) := LoadKeys(s, q, n, []);
        match end
        case Fail => Loaded(-1, [], keys, 0)
        case Got(_, q2) => Loaded(0, tables, keys, q2)
  }
}
