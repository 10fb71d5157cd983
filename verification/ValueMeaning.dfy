/** What equality of values means: the same number, truth value or characters. */
module ValueMeaning {
  import opened Values

  // ---- Doubles as numbers ----

  function Pow2(n: nat): (p: nat)
    ensures p > 0
  {
    if n == 0 then 1 else 2 * Pow2(n - 1)
  }

  /** A double: finite ones in units of the smallest positive one, 2^-1074. */
  datatype Number = NotANumber | Infinite(negative: bool) | Finite(n: int)

  function Exponent(bits: int): (e: nat)
    requires 0 <= bits
    ensures e < 2048
  {
    (bits / TWO_52) % 2048
  }

  function Fraction(bits: int): (f: nat)
    requires 0 <= bits
    ensures f < TWO_52
  {
    bits % TWO_52
  }

  /** The significand of exponent e and fraction f, shifted: subnormals have no hidden bit. */
  function Magnitude(e: nat, f: nat): nat {
    if e == 0 then f else (TWO_52 + f) * Pow2(e - 1)
  }

  /** The number a 64-bit pattern stands for, as section 3.4 of IEEE 754-2019 lays it out. */
  function NumberOf(bits: int): Number
    requires 0 <= bits < TWO_64
  {
    var e, f, negative := Exponent(bits), Fraction(bits), bits >= TWO_63;
    if e == 2047 then if f == 0 then Infinite(negative) else NotANumber
    else
      var n: int := Magnitude(e, f);
      Finite(if negative then -n else n)
  }

  lemma {:induction false} TimesOrder(a: nat, b: nat, p: nat)
    requires p > 0
    ensures a < b ==> a * p < b * p
    ensures a * p == b * p ==> a == b
  {
    if a < b {
      assert b * p == a * p + (b - a) * p;
    } else if b < a {
      assert a * p == b * p + (a - b) * p;
    }
  }

  lemma {:induction false} Pow2Grows(a: nat, b: nat)
    requires a < b
    ensures 2 * Pow2(a) <= Pow2(b)
  {
    if a + 1 < b {
      Pow2Grows(a, b - 1);
    }
  }

  lemma {:induction false} ShiftOrders(base: nat, f1: nat, f2: nat, p: nat, q: nat)
    requires f1 < base && 0 < p && 2 * p <= q
    ensures (base + f1) * p < (base + f2) * q
  {
    TimesOrder(base + f1, 2 * base, p);
    assert 2 * base * p == base * (2 * p);
    assert base * q == base * (2 * p) + base * (q - 2 * p);
    assert (base + f2) * q == base * q + f2 * q;
  }

  lemma {:induction false} TimesAtLeast(a: nat, p: nat)
    requires p > 0
    ensures a <= a * p
  {
    assert a * p == a + a * (p - 1);
  }

  /** A larger exponent gives a larger magnitude, whatever the fractions. */
  lemma {:induction false} ExponentOrders(e1: nat, f1: nat, e2: nat, f2: nat)
    requires f1 < TWO_52 && f2 < TWO_52 && e1 < e2
    ensures Magnitude(e1, f1) < Magnitude(e2, f2)
  {
    hide Pow2;
    if e1 == 0 {
      TimesAtLeast(TWO_52 + f2, Pow2(e2 - 1));
    } else {
      Pow2Grows(e1 - 1, e2 - 1);
      ShiftOrders(TWO_52, f1, f2, Pow2(e1 - 1), Pow2(e2 - 1));
    }
  }

  lemma {:induction false} MagnitudeInjective(e1: nat, f1: nat, e2: nat, f2: nat)
    requires f1 < TWO_52 && f2 < TWO_52 && Magnitude(e1, f1) == Magnitude(e2, f2)
    ensures e1 == e2 && f1 == f2
  {
    if e1 < e2 {
      ExponentOrders(e1, f1, e2, f2);
    } else if e2 < e1 {
      ExponentOrders(e2, f2, e1, f1);
    } else if e1 > 0 {
      TimesOrder(TWO_52 + f1, TWO_52 + f2, Pow2(e1 - 1));
    }
  }

  lemma {:induction false} ZeroMagnitude(e: nat, f: nat)
    requires f < TWO_52
    ensures Magnitude(e, f) == 0 <==> e == 0 && f == 0
  {
    if e > 0 {
      ExponentOrders(0, 0, e, f);
    }
  }

  lemma {:induction false} PatternParts(bits: int)
    requires 0 <= bits < TWO_64
    ensures bits == (if bits >= TWO_63 then TWO_63 else 0) + Exponent(bits) * TWO_52 + Fraction(bits)
    ensures IsZero(bits) <==> Exponent(bits) == 0 && Fraction(bits) == 0
    ensures IsNaN(bits) <==> NumberOf(bits) == NotANumber
  {
  }

  /** Two doubles compare equal exactly when they stand for the same number: the two zeros do, NaN never does. */
  lemma {:induction false} DoubleEqMeaning(a: int, b: int)
    requires 0 <= a < TWO_64 && 0 <= b < TWO_64
    ensures DoubleEq(a, b) <==> NumberOf(a) != NotANumber && NumberOf(a) == NumberOf(b)
  {
    hide Magnitude;
    PatternParts(a);
    PatternParts(b);
    ZeroMagnitude(Exponent(a), Fraction(a));
    ZeroMagnitude(Exponent(b), Fraction(b));
    if NumberOf(a) == NumberOf(b) && NumberOf(a).Finite? && Magnitude(Exponent(a), Fraction(a)) == Magnitude(Exponent(b), Fraction(b)) {
      MagnitudeInjective(Exponent(a), Fraction(a), Exponent(b), Fraction(b));
    }
  }

  // ---- Equality and matching ----

  /** Two scalars of a kind are the same value. */
  predicate SameValue(a: Data, b: Data, k: Kind)
    requires HasKind(a, k) && HasKind(b, k)
  {
    if k == KDouble then NumberOf(a.bits) != NotANumber && NumberOf(a.bits) == NumberOf(b.bits) else a == b
  }

  /** The index comparison says equal exactly of the same value. */
  lemma {:induction false} EqualsMeaning(a: Data, b: Data, k: Kind)
    requires HasKind(a, k) && HasKind(b, k)
    ensures DataValueEquals(a, b, k) <==> SameValue(a, b, k)
  {
    if k == KDouble {
      DoubleEqMeaning(a.bits, b.bits);
    }
  }

  /** A cell matches a value: it is the value, or, on an array column, some element is. */
  predicate CellMatches(cell: Data, v: Data, ty: FieldType)
    requires Typed(cell, ty) && HasKind(v, ty.kind)
  {
    match ty
    case Scalar(k) => SameValue(cell, v, k)
    case Array(k) => exists i :: 0 <= i < |Elements(cell)| && SameValue(Elements(cell)[i], v, k)
  }

  /** The scan comparison reports exactly the matching cells. */
  lemma {:induction false} CompareMeaning(cell: Data, v: Data, ty: FieldType)
    requires Typed(cell, ty) && HasKind(v, ty.kind)
    ensures CompareValues(cell, v, ty) <==> CellMatches(cell, v, ty)
  {
    hide HasKind, DataValueEquals, SameValue;
    match ty
    case Scalar(k) =>
      ComparisonsAgree(cell, v, k);
      EqualsMeaning(cell, v, k);
    case Array(k) =>
      var ds := Elements(cell);
      forall i | 0 <= i < |ds|
        ensures CompareValues(ds[i], v, Scalar(k)) <==> SameValue(ds[i], v, k)
      {
        ComparisonsAgree(ds[i], v, k);
        EqualsMeaning(ds[i], v, k);
      }
  }
}
