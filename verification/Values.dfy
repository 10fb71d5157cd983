/** Column types and cell values, with the two value comparisons and the index hash. */
module Values {

  datatype Option<+T> = None | Some(value: T)

  lemma {:induction false} ConcatAssociates<T>(a: seq<T>, b: seq<T>, c: seq<T>)
    ensures (a + b) + c == a + (b + c)
  {
  }

  const TWO_31: int := 0x8000_0000
  const TWO_32: int := 0x1_0000_0000
  const TWO_52: int := 0x10_0000_0000_0000
  const TWO_63: int := 0x8000_0000_0000_0000
  const TWO_64: int := 0x1_0000_0000_0000_0000

  const MAX_ARRAY_LENGTH: int := 1024
  const MAX_STRING_VALUE_LENGTH: int := 4096

  datatype Kind = KInt | KDouble | KBool | KString

  /** A column is a scalar of some kind or a homogeneous array of that kind. */
  datatype FieldType = Scalar(kind: Kind) | Array(kind: Kind)

  datatype Field = Field(name: string, ty: FieldType)

  /**
   * A cell value. Doubles are kept as their 64-bit pattern. `AppendV` is the
   * update literal that pushes one element; stored, it is an array of no elements.
   */
  datatype Data =
    | IntV(i: int)
    | DoubleV(bits: int)
    | BoolV(b: bool)
    | StrV(s: string)
    | NullStr
    | ArrayV(elems: seq<Data>)
    | AppendV(elem: Data)

  predicate IsI32(i: int) { -TWO_31 <= i < TWO_31 }

  predicate IsI64(i: int) { -TWO_63 <= i < TWO_63 }

  /** The value is a scalar a column of this kind can hold. */
  predicate HasKind(d: Data, k: Kind) {
    match k
    case KInt => d.IntV? && IsI32(d.i)
    case KDouble => d.DoubleV? && 0 <= d.bits < TWO_64
    case KBool => d.BoolV?
    case KString => d.NullStr? || (d.StrV? && |d.s| <= MAX_STRING_VALUE_LENGTH && '\0' !in d.s)
  }

  /** The value fits the column: the right scalar kind, or an array of that kind. */
  predicate Typed(d: Data, ty: FieldType) {
    match ty
    case Scalar(k) => HasKind(d, k)
    case Array(k) =>
      || (d.ArrayV? && |d.elems| <= MAX_ARRAY_LENGTH && forall i :: 0 <= i < |d.elems| ==> HasKind(d.elems[i], k))
      || (d.AppendV? && HasKind(d.elem, k))
  }

  /** The stored elements of an array cell: an append literal has none. */
  function Elements(d: Data): seq<Data> {
    if d.ArrayV? then d.elems else []
  }

  // ---- IEEE 754 equality on bit patterns ----

  predicate IsNaN(bits: int) {
    (bits / TWO_52) % 2048 == 2047 && bits % TWO_52 != 0
  }

  predicate IsZero(bits: int) {
    bits % TWO_63 == 0
  }

  predicate DoubleEq(a: int, b: int) {
    !IsNaN(a) && !IsNaN(b) && (a == b || (IsZero(a) && IsZero(b)))
  }

  // ---- The comparison used by the index ----

  /** Equality of two scalars of one kind, as the index compares them. */
  predicate DataValueEquals(a: Data, b: Data, k: Kind) {
    match k
    case KInt => a.IntV? && b.IntV? && a.i == b.i
    case KDouble => a.DoubleV? && b.DoubleV? && DoubleEq(a.bits, b.bits)
    case KBool => a.BoolV? && b.BoolV? && a.b == b.b
    case KString => (a.NullStr? && b.NullStr?) || (a.StrV? && b.StrV? && a.s == b.s)
  }

  // ---- The comparison used by the full scan ----

  /** True when the scan reports a match; on an array column it means "contains". */
  predicate CompareValues(a: Data, b: Data, ty: FieldType) {
    match ty
    case Scalar(KInt) => a.IntV? && b.IntV? && a.i == b.i
    case Scalar(KDouble) => a.DoubleV? && b.DoubleV? && DoubleEq(a.bits, b.bits)
    case Scalar(KBool) => a.BoolV? && b.BoolV? && a.b == b.b
    case Scalar(KString) =>
      if a.NullStr? && b.NullStr? then true
      else if a.NullStr? || b.NullStr? then false
      else a.StrV? && b.StrV? && a.s == b.s
    case Array(k) => exists i :: 0 <= i < |Elements(a)| && CompareValues(Elements(a)[i], b, Scalar(k))
  }

  // ---- Hashing ----

  /** Bitwise exclusive or of two naturals. */
  function Xor(a: nat, b: nat): nat {
    if a == 0 && b == 0 then 0 else (a % 2 + b % 2) % 2 + 2 * Xor(a / 2, b / 2)
  }

  /** The 32-bit string hash: h starts at 5381 and becomes 33 * h + byte at each step. */
  function HashChars(s: string, h: nat): nat
    decreases |s|
  {
    if s == [] then h else HashChars(s[1..], (33 * h + s[0] as int) % TWO_32)
  }

  /** The 32-bit hash of a scalar of the given kind. */
  function HashData(d: Data, k: Kind): nat {
    match k
    case KInt => if d.IntV? then ((d.i % TWO_32) * 2654435761) % TWO_32 else 0
    case KDouble => if d.DoubleV? && 0 <= d.bits then Xor(d.bits % TWO_32, (d.bits / TWO_32) % TWO_32) else 0
    case KBool => if d.BoolV? && d.b then 1 else 0
    case KString => if d.StrV? then HashChars(d.s, 5381) else 0
  }

  const INDEX_BUCKETS: nat := 32

  function IndexBucket(d: Data, k: Kind): (b: nat)
    ensures b < INDEX_BUCKETS
  {
    HashData(d, k) % INDEX_BUCKETS
  }

  lemma {:induction false} XorZero(b: nat)
    ensures Xor(0, b) == b && Xor(b, 0) == b
  {
    if b != 0 {
      XorZero(b / 2);
    }
  }

  /**
   * The two zeros hash to different words (0 and 2^31), but to words that agree
   * modulo the 32 buckets.
   */
  lemma {:induction false} ZeroHashes(bits: nat)
    requires IsZero(bits) && bits < TWO_64
    ensures HashData(DoubleV(bits), KDouble) == if bits == 0 then 0 else TWO_31
    ensures IndexBucket(DoubleV(bits), KDouble) == 0
  {
    var high := (bits / TWO_32) % TWO_32;
    assert bits % TWO_32 == 0;
    assert high == if bits == 0 then 0 else TWO_31;
    XorZero(high);
  }

  /** The hashes of one value of each kind, as 32-bit arithmetic gives them. */
  lemma {:induction false} HashExamples()
    ensures HashData(IntV(1), KInt) == 2654435761 && HashData(IntV(-1), KInt) == 1640531535
    ensures HashData(BoolV(true), KBool) == 1 && HashData(BoolV(false), KBool) == 0
    ensures HashData(StrV("a"), KString) == 177670 && HashData(NullStr, KString) == 0
  {
    assert "a"[1..] == [];
    assert HashChars("a", 5381) == HashChars([], (33 * 5381 + 97) % TWO_32);
  }

  /** Values that compare equal land in the same index bucket. */
  lemma {:induction false} EqualValuesShareBucket(a: Data, b: Data, k: Kind)
    requires HasKind(a, k) && HasKind(b, k)
    requires DataValueEquals(a, b, k)
    ensures IndexBucket(a, k) == IndexBucket(b, k)
  {
    if k == KDouble && a.bits != b.bits {
      ZeroHashes(a.bits);
      ZeroHashes(b.bits);
    }
  }

  /** The index comparison and the scan comparison are the same relation on scalars. */
  lemma {:induction false} ComparisonsAgree(a: Data, b: Data, k: Kind)
    ensures CompareValues(a, b, Scalar(k)) <==> DataValueEquals(a, b, k)
  {
  }

  /** A NaN matches nothing, through either comparison. */
  lemma {:induction false} NaNMatchesNothing(bits: int, d: Data)
    requires IsNaN(bits)
    ensures !DataValueEquals(DoubleV(bits), d, KDouble) && !DataValueEquals(d, DoubleV(bits), KDouble)
    ensures !CompareValues(DoubleV(bits), d, Scalar(KDouble)) && !CompareValues(d, DoubleV(bits), Scalar(KDouble))
  {
  }

  /** Equality is symmetric and transitive, so two values equal to a third behave alike. */
  lemma {:induction false} EqualsTransfers(a: Data, b: Data, c: Data, k: Kind)
    requires DataValueEquals(a, b, k)
    ensures DataValueEquals(b, a, k)
    ensures DataValueEquals(a, c, k) <==> DataValueEquals(b, c, k)
    ensures DataValueEquals(c, a, k) <==> DataValueEquals(c, b, k)
  {
  }
}
