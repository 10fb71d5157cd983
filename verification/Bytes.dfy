/** Little-endian numbers and raw bytes at a file position. A byte is a character. */
module Bytes {
  import opened Spans
  import opened Values

  /** The result of reading at a position: failure, or a value and the position after it. */
  datatype Read<+T> = Fail | Got(value: T, pos: nat) {
    predicate IsFailure() { Fail? }

    function PropagateFailure<U>(): Read<U>
      requires Fail?
    {
      Fail
    }

    function Extract(): (T, nat)
      requires Got?
    {
      (value, pos)
    }
  }

  /** The next n bytes. */
  function Take(s: string, p: nat, n: nat): (r: Read<string>)
    ensures r.Got? ==> r.pos == p + n <= |s| && |r.value| == n
  {
    if p + n <= |s| then Got(s[p..p + n], p + n) else Fail
  }

  /** Bytes written at a position are the bytes read there. */
  lemma {:induction false} TakeAt(s: string, p: nat, e: string)
    requires HasAt(s, p, e)
    ensures Take(s, p, |e|) == Got(e, p + |e|)
  {
    HasAtSlice(s, p, e);
  }

  lemma {:induction false} TakeExtends(s: string, p: nat, n: nat, x: string)
    requires Take(s, p, n).Got?
    ensures Take(s + x, p, n) == Take(s, p, n)
  {
    assert (s + x)[p..p + n] == s[p..p + n];
  }

  // ---- Unsigned little-endian ----

  function Power256(w: nat): (p: nat)
    ensures p > 0
  {
    if w == 0 then 1 else 256 * Power256(w - 1)
  }

  lemma {:induction false} Widths()
    ensures Power256(1) == 256 && Power256(2) == 0x1_0000 && Power256(4) == TWO_32 && Power256(8) == TWO_64
  {
    assert Power256(3) == 256 * 0x1_0000;
    assert Power256(5) == 256 * TWO_32;
    assert Power256(6) == 256 * (256 * TWO_32);
    assert Power256(7) == 256 * (256 * (256 * TWO_32));
  }

  function Le(n: nat, w: nat): (s: string)
    ensures |s| == w
  {
    if w == 0 then [] else [(n % 256) as char] + Le(n / 256, w - 1)
  }

  function FromLe(s: string): nat {
    if s == [] then 0 else s[0] as int + 256 * FromLe(s[1..])
  }

  lemma {:induction false} FromLeOfLe(n: nat, w: nat)
    requires n < Power256(w)
    ensures FromLe(Le(n, w)) == n
  {
    if w > 0 {
      FromLeOfLe(n / 256, w - 1);
      assert Le(n, w)[1..] == Le(n / 256, w - 1);
    }
  }

  function ReadUint(s: string, p: nat, w: nat): (r: Read<nat>)
    ensures r.Got? ==> r.pos == p + w <= |s|
  {
    var (b, q) :- Take(s, p, w);
    Got(FromLe(b), q)
  }

  lemma {:induction false} ReadUintAt(s: string, p: nat, n: nat, w: nat)
    requires HasAt(s, p, Le(n, w)) && n < Power256(w)
    ensures ReadUint(s, p, w) == Got(n, p + w)
  {
    TakeAt(s, p, Le(n, w));
    FromLeOfLe(n, w);
  }

  // ---- Two's complement ----

  function Unsigned(i: int, modulus: nat): nat
    requires modulus > 0
  {
    i % modulus
  }

  function Signed(n: nat, modulus: nat): int {
    if n < modulus / 2 then n else n - modulus
  }

  function LeSigned(i: int, w: nat): (s: string)
    ensures |s| == w
  {
    Le(Unsigned(i, Power256(w)), w)
  }

  function ReadInt(s: string, p: nat, w: nat): (r: Read<int>)
    ensures r.Got? ==> r.pos == p + w <= |s|
  {
    var (n, q) :- ReadUint(s, p, w);
    Got(Signed(n, Power256(w)), q)
  }

  lemma {:induction false} ReadI32At(s: string, p: nat, i: int)
    requires HasAt(s, p, LeSigned(i, 4)) && IsI32(i)
    ensures ReadInt(s, p, 4) == Got(i, p + 4)
  {
    Widths();
    ReadUintAt(s, p, Unsigned(i, TWO_32), 4);
  }

  lemma {:induction false} ReadI64At(s: string, p: nat, i: int)
    requires HasAt(s, p, LeSigned(i, 8)) && IsI64(i)
    ensures ReadInt(s, p, 8) == Got(i, p + 8)
  {
    Widths();
    ReadUintAt(s, p, Unsigned(i, TWO_64), 8);
  }

  lemma {:induction false} ReadUintExtends(s: string, p: nat, w: nat, x: string)
    requires ReadUint(s, p, w).Got?
    ensures ReadUint(s + x, p, w) == ReadUint(s, p, w) && ReadInt(s + x, p, w) == ReadInt(s, p, w)
  {
    TakeExtends(s, p, w, x);
  }
}
