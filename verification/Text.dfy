/** Characters of command text. A C string is a sequence without NUL; reading at its end gives NUL. */
module Text {
  import opened Spans

  function At(s: string, p: nat): char {
    if p < |s| then s[p] else '\0'
  }

  predicate IsBlank(c: char) { c == ' ' || c == '\t' }

  /** isspace in the C locale. */
  predicate IsSpace(c: char) {
    c == ' ' || ('\t' <= c <= '\r')
  }

  predicate IsDigit(c: char) { '0' <= c <= '9' }

  predicate IsAlpha(c: char) { 'a' <= c <= 'z' || 'A' <= c <= 'Z' }

  function ToLower(c: char): char {
    if 'A' <= c <= 'Z' then (c as int + 32) as char else c
  }

  /** The word stands at p, ignoring case. */
  predicate WordAt(s: string, p: nat, word: string) {
    p + |word| <= |s| && forall i :: 0 <= i < |word| ==> ToLower(s[p + i]) == ToLower(word[i])
  }

  function SkipBlanks(s: string, p: nat): (q: nat)
    requires p <= |s|
    ensures p <= q <= |s| && !IsBlank(At(s, q))
    ensures forall i :: p <= i < q ==> IsBlank(s[i])
    decreases |s| - p
  {
    if IsBlank(At(s, p)) then SkipBlanks(s, p + 1) else p
  }

  /** The end of the run of characters that are not whitespace. */
  function TokenEnd(s: string, p: nat): (q: nat)
    requires p <= |s|
    ensures p <= q <= |s| && (q == |s| || IsSpace(s[q]))
    ensures forall i :: p <= i < q ==> !IsSpace(s[i])
    decreases |s| - p
  {
    if p < |s| && !IsSpace(s[p]) then TokenEnd(s, p + 1) else p
  }

  predicate IsIdentifier(s: string) {
    && s != [] && (IsAlpha(s[0]) || s[0] == '_')
    && forall i :: 0 < i < |s| ==> IsAlpha(s[i]) || IsDigit(s[i]) || s[i] == '_'
  }

  // ---- Decimal numbers ----

  function DigitChar(d: nat): (c: char)
    requires d < 10
    ensures IsDigit(c) && c as int - '0' as int == d
  {
    ('0' as int + d) as char
  }

  function NatText(n: nat): (s: string)
    ensures s != [] && forall i :: 0 <= i < |s| ==> IsDigit(s[i])
  {
    if n < 10 then [DigitChar(n)] else NatText(n / 10) + [DigitChar(n % 10)]
  }

  /** An integer as the client prints it. */
  function IntText(i: int): (s: string)
    ensures s != [] && (IsDigit(s[0]) || s[0] == '-')
  {
    if i < 0 then "-" + NatText(-i) else NatText(i)
  }

  /** The value of the digit run starting at p, after a prefix worth v, and where the run ends. */
  function DigitRun(s: string, p: nat, v: nat): (r: (nat, nat))
    requires p <= |s|
    ensures p <= r.1 <= |s| && !IsDigit(At(s, r.1))
    decreases |s| - p
  {
    if IsDigit(At(s, p)) then DigitRun(s, p + 1, v * 10 + (s[p] as int - '0' as int)) else (v, p)
  }

  lemma {:induction false} SkipNone(s: string, p: nat)
    requires p <= |s| && !IsBlank(At(s, p))
    ensures SkipBlanks(s, p) == p
  {
  }

  /** Printed digits read back as the number they print. */
  lemma {:induction false} DigitsAt(s: string, p: nat, n: nat)
    requires HasAt(s, p, NatText(n))
    ensures p + |NatText(n)| <= |s| && DigitRun(s, p, 0) == DigitRun(s, p + |NatText(n)|, n)
    decreases n
  {
    HasAtChars(s, p, NatText(n));
    if n >= 10 {
      var head := NatText(n / 10);
      HasAtSplit(s, p, head, [DigitChar(n % 10)]);
      HasAtChars(s, p + |head|, [DigitChar(n % 10)]);
      DigitsAt(s, p, n / 10);
    }
  }
}
