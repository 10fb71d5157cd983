/** The client's command printer. Numbers are integers here. */
module Printer {
  import opened Values
  import opened Text

  /** Every occurrence of one character replaced by a text. */
  function ReplaceAll(s: string, c: char, with: string): string {
    if s == [] then [] else (if s[0] == c then with else [s[0]]) + ReplaceAll(s[1..], c, with)
  }

  /** Five replacements one after another, backslash first. */
  function EscapeString(s: string): string {
    ReplaceAll(ReplaceAll(ReplaceAll(ReplaceAll(ReplaceAll(s, '\\', "\\\\"), '\n', "\\n"), '\r', "\\r"), '\t', "\\t"),
               '\"', "\\\"")
  }

  /** What one character becomes. */
  function EscapeChar(c: char): string {
    match c
    case '\\' => "\\\\"
    case '\n' => "\\n"
    case '\r' => "\\r"
    case '\t' => "\\t"
    case '\"' => "\\\""
    case _ => [c]
  }

  function EscapeEach(s: string): string {
    if s == [] then [] else EscapeChar(s[0]) + EscapeEach(s[1..])
  }

  lemma {:induction false} ReplaceAllConcat(a: string, b: string, c: char, with: string)
    ensures ReplaceAll(a + b, c, with) == ReplaceAll(a, c, with) + ReplaceAll(b, c, with)
    decreases |a|
  {
    if a == [] {
      assert a + b == b;
    } else {
      assert (a + b)[1..] == a[1..] + b;
      ReplaceAllConcat(a[1..], b, c, with);
    }
  }

  lemma {:induction false} ReplaceShort(a: string, c: char, with: string)
    requires |a| <= 2
    ensures |a| == 1 ==> ReplaceAll(a, c, with) == if a[0] == c then with else a
    ensures |a| == 2 && a[0] != c && a[1] != c ==> ReplaceAll(a, c, with) == a
  {
    assert |a| >= 1 ==> ReplaceAll(a, c, with) == (if a[0] == c then with else [a[0]]) + ReplaceAll(a[1..], c, with);
    assert |a| == 2 ==> a[1..] == [a[1]] && ReplaceAll([a[1]], c, with) == (if a[1] == c then with else [a[1]]) + [];
  }

  lemma {:induction false} EscapeOne(c: char)
    ensures EscapeString([c]) == EscapeChar(c)
  {
    var s1 := ReplaceAll([c], '\\', "\\\\");
    ReplaceShort([c], '\\', "\\\\");
    var s2 := ReplaceAll(s1, '\n', "\\n");
    ReplaceShort(s1, '\n', "\\n");
    var s3 := ReplaceAll(s2, '\r', "\\r");
    ReplaceShort(s2, '\r', "\\r");
    var s4 := ReplaceAll(s3, '\t', "\\t");
    ReplaceShort(s3, '\t', "\\t");
    ReplaceShort(s4, '\"', "\\\"");
  }

  lemma {:induction false} EscapeConcat(a: string, b: string)
    ensures EscapeString(a + b) == EscapeString(a) + EscapeString(b)
  {
    var a1, b1 := ReplaceAll(a, '\\', "\\\\"), ReplaceAll(b, '\\', "\\\\");
    ReplaceAllConcat(a, b, '\\', "\\\\");
    var a2, b2 := ReplaceAll(a1, '\n', "\\n"), ReplaceAll(b1, '\n', "\\n");
    ReplaceAllConcat(a1, b1, '\n', "\\n");
    var a3, b3 := ReplaceAll(a2, '\r', "\\r"), ReplaceAll(b2, '\r', "\\r");
    ReplaceAllConcat(a2, b2, '\r', "\\r");
    var a4, b4 := ReplaceAll(a3, '\t', "\\t"), ReplaceAll(b3, '\t', "\\t");
    ReplaceAllConcat(a3, b3, '\t', "\\t");
    ReplaceAllConcat(a4, b4, '\"', "\\\"");
  }

  /** The five successive replacements are one character-wise mapping: no pass touches another's output. */
  lemma {:induction false} EscapeIsCharwise(s: string)
    ensures EscapeString(s) == EscapeEach(s)
  {
    if s != [] {
      EscapeIsCharwise(s[1..]);
      EscapeOne(s[0]);
      assert s == [s[0]] + s[1..];
      EscapeConcat([s[0]], s[1..]);
    }
  }

  // ---- Values ----

  function FormatScalar(d: Data): string {
    match d
    case StrV(s) => "\"" + (EscapeString(s) + "\"")
    case BoolV(b) => if b then "true" else "false"
    case IntV(i) => IntText(i)
    case _ => "0"
  }

  function Join(parts: seq<string>): string {
    if parts == [] then [] else if |parts| == 1 then parts[0] else parts[0] + (", " + Join(parts[1..]))
  }

  function FormatScalars(ds: seq<Data>): (r: seq<string>)
    ensures |r| == |ds|
  {
    seq(|ds|, i requires 0 <= i < |ds| => FormatScalar(ds[i]))
  }

  function FormatArray(ds: seq<Data>): string {
    "[" + (Join(FormatScalars(ds)) + "]")
  }

  function FormatArrayAppend(d: Data): string {
    "[...+" + (FormatScalar(d) + "]")
  }

  /** One value of an UP: the ignore mark, or a value. */
  datatype Item = Ignored | Value(d: Data)

  /** An update value; the string `_` is the client's own spelling of the ignore mark. */
  function FormatItem(item: Item): string {
    match item
    case Ignored => "_"
    case Value(StrV("_")) => "_"
    case Value(ArrayV(ds)) => FormatArray(ds)
    case Value(AppendV(d)) => FormatArrayAppend(d)
    case Value(d) => FormatScalar(d)
  }

  /** An ADD value. */
  function FormatValue(d: Data): string {
    match d
    case ArrayV(ds) => FormatArray(ds)
    case _ => FormatScalar(d)
  }

  function FormatItems(items: seq<Item>): (r: seq<string>)
    ensures |r| == |items|
  {
    seq(|items|, i requires 0 <= i < |items| => FormatItem(items[i]))
  }

  function FormatValues(ds: seq<Data>): (r: seq<string>)
    ensures |r| == |ds|
  {
    seq(|ds|, i requires 0 <= i < |ds| => FormatValue(ds[i]))
  }

  /** The key of an ADD: `*`, or a number. */
  datatype AddKey = Auto | Given(key: int)

  function KeyText(key: AddKey): string {
    match key case Auto => "*" case Given(k) => IntText(k)
  }

  function BuildAdd(db: string, key: AddKey, values: seq<Data>): string {
    "ADD " + (db + (" " + (KeyText(key) + (" (" + (Join(FormatValues(values)) + ")")))))
  }

  function BuildUp(db: string, key: int, items: seq<Item>): string {
    "UP " + (db + (" " + (IntText(key) + (" (" + (Join(FormatItems(items)) + ")")))))
  }
}
