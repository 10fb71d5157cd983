/** Literal bytes: what the snapshot writer puts into the file, byte by byte. */
module SnapshotExamples {
  import opened Values
  import opened RowMap
  import opened Tables
  import opened Bytes
  import opened Snapshot
  import Searches

  /** A string with these byte values. */
  function Raw(bytes: seq<nat>): (s: string)
    ensures |s| == |bytes| && forall i :: 0 <= i < |s| && bytes[i] < 256 ==> s[i] as int == bytes[i]
  {
    seq(|bytes|, i requires 0 <= i < |bytes| => if bytes[i] < 256 then bytes[i] as char else '\0')
  }

  /** The number without its lowest i bytes. */
  function Shifted(n: nat, i: nat): nat {
    if i == 0 then n else Shifted(n / 256, i - 1)
  }

  /** Bytes of a number stand lowest first. */
  lemma {:induction false} LowestFirst(n: nat, w: nat, i: nat)
    requires i < w
    ensures Le(n, w)[i] as int == Shifted(n, i) % 256
    decreases w
  {
    if i > 0 {
      LowestFirst(n / 256, w - 1, i - 1);
    }
  }

  lemma {:induction false} SmallNumber(n: nat, w: nat)
    requires n < 256 && w > 0
    ensures Le(n, w) == [n as char] + seq(w - 1, _ => '\0')
    decreases w
  {
    Zeros(w - 1);
  }

  lemma {:induction false} Zeros(w: nat)
    ensures Le(0, w) == seq(w, _ => '\0')
    decreases w
  {
    if w > 0 {
      Zeros(w - 1);
    }
  }

  lemma {:induction false} MinusTwo()
    ensures LeSigned(-2, 4) == Raw([254, 255, 255, 255])
  {
    var n := 0xFFFF_FFFE;
    Widths();
    assert Shifted(n, 1) == n / 256 && Shifted(n, 2) == n / 256 / 256 && Shifted(n, 3) == n / 256 / 256 / 256;
    LowestFirst(n, 4, 0);
    LowestFirst(n, 4, 1);
    LowestFirst(n, 4, 2);
    LowestFirst(n, 4, 3);
    assert Unsigned(-2, Power256(4)) == n;
  }

  const FIELDS: seq<Field> := [
    Field("key", Scalar(KInt)), Field("a", Scalar(KInt)), Field("b", Scalar(KBool)), Field("s", Scalar(KString)),
    Field("xs", Array(KInt)), Field("z", Scalar(KString))]

  const NODE: Node := Node(1, Row([IntV(1), IntV(-2), BoolV(true), StrV("hi"), ArrayV([IntV(3)]), NullStr], 5, 6))

  lemma {:induction false} NodeOk()
    ensures RowOk(FIELDS, NODE)
  {
  }

  /** A row: its key, its cells in column order, the time of creation, the time of the last update. */
  lemma {:induction false} RowExample()
    ensures RowOk(FIELDS, NODE)
    ensures EncodeRow(FIELDS, NODE)
         == Raw([1, 0, 0, 0])
          + ((Raw([254, 255, 255, 255]) + (Raw([1]) + (Raw([2, 0, 0, 0, 104, 105])
              + (Raw([1, 0, 0, 0, 3, 0, 0, 0]) + Raw([255, 255, 255, 255])))))
             + (Raw([5, 0, 0, 0, 0, 0, 0, 0]) + Raw([6, 0, 0, 0, 0, 0, 0, 0])))
  {
    hide EncodeCells, EncodeCell, RowOk, LeSigned;
    NodeOk();
    CellsExample();
    CellExamples();
    NumberExamples();
  }

  lemma {:induction false} NumberExamples()
    ensures LeSigned(1, 4) == Raw([1, 0, 0, 0]) && LeSigned(3, 4) == Raw([3, 0, 0, 0])
    ensures LeSigned(5, 8) == Raw([5, 0, 0, 0, 0, 0, 0, 0]) && LeSigned(6, 8) == Raw([6, 0, 0, 0, 0, 0, 0, 0])
    ensures Le(1, 4) == Raw([1, 0, 0, 0]) && Le(2, 4) == Raw([2, 0, 0, 0]) && Le(1, 1) == Raw([1])
    ensures Le(0, 4) == Raw([0, 0, 0, 0]) && Le(4, 4) == Raw([4, 0, 0, 0]) && Le(1, 2) == Raw([1, 0]) && Le(2, 2) == Raw([2, 0])
  {
    hide Le;
    Widths();
    SmallNumber(0, 4);
    SmallNumber(4, 4);
    SmallNumber(1, 2);
    SmallNumber(2, 2);
    SmallNumber(1, 4);
    SmallNumber(2, 4);
    SmallNumber(3, 4);
    SmallNumber(1, 1);
    SmallNumber(5, 8);
    SmallNumber(6, 8);
  }

  lemma {:induction false} AllOnes()
    ensures Le(0xFFFF_FFFF, 4) == Raw([255, 255, 255, 255])
  {
    var n := 0xFFFF_FFFF;
    assert Shifted(n, 1) == n / 256 && Shifted(n, 2) == n / 256 / 256 && Shifted(n, 3) == n / 256 / 256 / 256;
    LowestFirst(n, 4, 0);
    LowestFirst(n, 4, 1);
    LowestFirst(n, 4, 2);
    LowestFirst(n, 4, 3);
  }

  /** Each kind of cell: ints and counts in four bytes, bools in one, strings behind their length, all ones for no string. */
  lemma {:induction false} CellExamples()
    ensures EncodeCell(IntV(-2), Scalar(KInt)) == Raw([254, 255, 255, 255])
    ensures EncodeCell(BoolV(true), Scalar(KBool)) == Raw([1])
    ensures EncodeCell(StrV("hi"), Scalar(KString)) == Raw([2, 0, 0, 0, 104, 105])
    ensures EncodeCell(ArrayV([IntV(3)]), Array(KInt)) == Raw([1, 0, 0, 0, 3, 0, 0, 0])
    ensures EncodeCell(NullStr, Scalar(KString)) == Raw([255, 255, 255, 255])
  {
    hide Le, LeSigned;
    MinusTwo();
    NumberExamples();
    AllOnes();
    assert [IntV(3)][1..] == [];
    assert EncodeScalars([IntV(3)], KInt) == EncodeScalar(IntV(3), KInt) + EncodeScalars([], KInt);
  }

  lemma {:induction false} CellsExample()
    ensures EncodeCells(FIELDS[1..], NODE.row.values[1..])
         == EncodeCell(IntV(-2), Scalar(KInt)) + (EncodeCell(BoolV(true), Scalar(KBool)) + (EncodeCell(StrV("hi"), Scalar(KString))
            + (EncodeCell(ArrayV([IntV(3)]), Array(KInt)) + EncodeCell(NullStr, Scalar(KString)))))
  {
    hide EncodeCell;
    var f, c := FIELDS[1..], NODE.row.values[1..];
    CellsStep(f, c);
    CellsStep(f[1..], c[1..]);
    CellsStep(f[1..][1..], c[1..][1..]);
    CellsStep(f[1..][1..][1..], c[1..][1..][1..]);
    CellsStep(f[1..][1..][1..][1..], c[1..][1..][1..][1..]);
    assert f[1..][1..][1..][1..][1..] == [];
    assert EncodeCells([], []) == [];
  }

  lemma {:induction false} CellsStep(fields: seq<Field>, cells: seq<Data>)
    requires |fields| == |cells| > 0
    ensures EncodeCells(fields, cells) == EncodeCell(cells[0], fields[0].ty) + EncodeCells(fields[1..], cells[1..])
  {
  }

  // ---- The frame of the file ----

  /** The type codes of columns. */
  lemma {:induction false} TypeCodes()
    ensures EncodeField(Field("a", Scalar(KInt))) == Raw([1, 0, 97, 0]) && EncodeField(Field("a", Scalar(KDouble))) == Raw([1, 0, 97, 1])
    ensures EncodeField(Field("a", Scalar(KBool))) == Raw([1, 0, 97, 2]) && EncodeField(Field("a", Scalar(KString))) == Raw([1, 0, 97, 3])
    ensures EncodeField(Field("a", Array(KInt))) == Raw([1, 0, 97, 4]) && EncodeField(Field("a", Array(KDouble))) == Raw([1, 0, 97, 5])
    ensures EncodeField(Field("a", Array(KBool))) == Raw([1, 0, 97, 6]) && EncodeField(Field("a", Array(KString))) == Raw([1, 0, 97, 7])
  {
    hide Le;
    SmallNumber(1, 2);
    forall code: nat | code < 8
      ensures Le(code, 1) == [code as char]
    {
      SmallNumber(code, 1);
    }
    assert Le(0, 1) == ['\0'] && Le(1, 1)[0] as int == 1;
  }

  /** A new table "t" with one int column: name, column count, columns, row count. */
  lemma {:induction false} TableExample(hash: int -> nat)
    ensures var t := Create(hash, "t", [Field("a", Scalar(KInt))]);
            Sound(t) && EncodeTable(t) == Raw([1, 0]) + ("t" + (Raw([1, 0, 0, 0]) + (Raw([1, 0, 97, 0]) + (Raw([0, 0, 0, 0]) + []))))
  {
    hide Le, LeSigned, Raw, EncodeField, Sound, Current, EncodeRows, Order;
    var fields := [Field("a", Scalar(KInt))];
    var t := Create(hash, "t", fields);
    Searches.CreateSound(hash, "t", fields);
    EmptyRows(t);
    TypeCodes();
    NumberExamples();
    assert t.fields[1..] == fields && fields[1..] == [];
    assert EncodeFields(fields) == EncodeField(fields[0]) + EncodeFields([]);
    assert EncodeField(fields[0]) + [] == EncodeField(fields[0]);
  }

  lemma {:induction false} EmptyRows(t: Table)
    requires Sound(t) && t.rows.Contents() == map[]
    ensures Order(t) == [] && RowsOk(t.fields, Order(t)) && EncodeRows(t.fields, Order(t)) == []
  {
    IterationOrder(t.rows);
  }

  /** The file of a store with no tables and one key: mark, version, table count, key count, key. */
  lemma {:induction false} FileExample(hash: string)
    ensures AllSound([])
    ensures Save([], [AuthKey("me", hash, 1)])
         == "PDBSNAP" + (Raw([4, 0, 0, 0]) + (Raw([0, 0, 0, 0]) + ([] + (Raw([1, 0, 0, 0]) + (Raw([2, 0]) + ("me" + (Raw([1]) + hash)))))))
  {
    hide Le, LeSigned, Raw;
    NumberExamples();
    var k := AuthKey("me", hash, 1);
    assert [k][1..] == [];
    assert EncodeKeys([k]) == EncodeKey(k) + EncodeKeys([]);
    assert EncodeKey(k) + [] == EncodeKey(k);
  }
}
