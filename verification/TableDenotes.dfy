/** What the texts of a table say: the numbers, truth values and characters of the stored row. */
module TableDenotes {
  import opened Values
  import opened Spans
  import opened Text
  import opened RowMap
  import opened Tables
  import opened Parser
  import opened ValueRoundTrip
  import opened TableText
  import opened ClientTable
  import opened TableRoundTrip

  // ---- Decimal numerals ----

  /** Digits with no needless zero in front. */
  predicate PlainDigits(ds: string) {
    ds != [] && (forall i :: 0 <= i < |ds| ==> IsDigit(ds[i])) && (|ds| > 1 ==> ds[0] != '0')
  }

  /** A numeral as one writes it: an optional minus sign, then plain digits, and no minus zero. */
  predicate Plain(text: string) {
    if text != [] && text[0] == '-' then PlainDigits(text[1..]) && text != "-0" else PlainDigits(text)
  }

  /** The text is the numeral of i. */
  predicate SaysInt(text: string, i: int) {
    Plain(text) && WholeInt(text) == Some(i)
  }

  /** Positional value, last digit first. */
  function DigitsValue(ds: string): nat
    requires forall i :: 0 <= i < |ds| ==> IsDigit(ds[i])
  {
    if ds == [] then 0
    else
      assert IsDigit(ds[|ds| - 1]);
      10 * DigitsValue(ds[..|ds| - 1]) + (ds[|ds| - 1] as int - '0' as int)
  }

  lemma {:induction false} NatTextDigits(n: nat)
    ensures PlainDigits(NatText(n)) && DigitsValue(NatText(n)) == n
    ensures NatText(n)[0] == '0' <==> n == 0
    decreases n
  {
    if n >= 10 {
      NatTextDigits(n / 10);
      assert NatText(n)[..|NatText(n)| - 1] == NatText(n / 10);
    } else {
      assert NatText(n)[..0] == [];
    }
  }

  /** Plain digits are the numeral of their value. */
  lemma {:induction false} DigitsAreNumeral(ds: string)
    requires PlainDigits(ds)
    ensures NatText(DigitsValue(ds)) == ds
    ensures |ds| > 1 || ds[0] != '0' ==> DigitsValue(ds) > 0
    decreases |ds|
  {
    var last := ds[|ds| - 1];
    if |ds| == 1 {
      assert ds == [last] && ds[..0] == [];
    } else {
      var head := ds[..|ds| - 1];
      DigitsAreNumeral(head);
      assert ds == head + [last];
    }
  }

  lemma {:induction false} RunValue(s: string, p0: nat, p: nat)
    requires p0 <= p <= |s| && forall i :: p0 <= i < |s| ==> IsDigit(s[i])
    ensures DigitRun(s, p, DigitsValue(s[p0..p])) == (DigitsValue(s[p0..]), |s|)
    decreases |s| - p
  {
    if p == |s| {
      assert s[p0..p] == s[p0..];
    } else {
      assert s[p0..p + 1][..p - p0] == s[p0..p] && s[p0..p + 1][p - p0] == s[p];
      RunValue(s, p0, p + 1);
    }
  }

  /** A plain text reads as the value of its digits. */
  lemma {:induction false} PlainReads(text: string)
    requires Plain(text)
    ensures var negative := text[0] == '-';
            var ds := if negative then text[1..] else text;
            PlainDigits(ds) && WholeInt(text) == Some(if negative then -(DigitsValue(ds) as int) else DigitsValue(ds))
  {
    hide DigitsValue;
    var p := if text[0] == '-' then 1 else 0;
    assert text[0..] == text;
    forall i | p <= i < |text|
      ensures IsDigit(text[i])
    {
      assert text[p..][i - p] == text[i];
    }
    assert text[p..p] == [];
    EmptyValue();
    RunValue(text, p, p);
  }

  lemma {:induction false} EmptyValue()
    ensures DigitsValue([]) == 0
  {
  }

  /** The numeral of i is what the printf of an integer writes, and nothing else is. */
  lemma {:induction false} SaysIntIff(text: string, i: int)
    ensures SaysInt(text, i) <==> text == IntText(i)
  {
    hide DigitsValue, WholeInt;
    if text == IntText(i) {
      NatTextDigits(if i < 0 then -i else i);
      assert i < 0 ==> text[1..] == NatText(-i);
      PlainReads(text);
    }
    if SaysInt(text, i) {
      PlainReads(text);
      if text[0] == '-' {
        DigitsAreNumeral(text[1..]);
        assert text == "-" + text[1..];
      } else {
        DigitsAreNumeral(text);
      }
    }
  }

  // ---- Cells ----

  /** The text says a scalar: its numeral, its truth word, its characters; doubles as the C library prints them. */
  predicate ScalarSays(text: string, d: Data, k: Kind, g: int -> string) {
    match k
    case KInt => d.IntV? && SaysInt(text, d.i)
    case KDouble => d.DoubleV? && text == g(d.bits)
    case KBool => d.BoolV? && text == if d.b then "true" else "false"
    case KString => text == if d.StrV? then d.s else "NULL"
  }

  lemma {:induction false} ScalarSaysIff(text: string, d: Data, k: Kind, g: int -> string)
    requires HasKind(d, k)
    ensures ScalarSays(text, d, k, g) <==> text == ScalarText(d, g)
  {
    hide SaysInt, IntText;
    if k == KInt {
      SaysIntIff(text, d.i);
    }
  }

  /** An element of an array: strings stand in quotes. */
  predicate ElementSays(part: string, d: Data, k: Kind, g: int -> string) {
    if k != KString then ScalarSays(part, d, k, g)
    else |part| >= 2 && part[0] == '\"' && part[|part| - 1] == '\"' && ScalarSays(part[1..|part| - 1], d, k, g)
  }

  lemma {:induction false} ElementSaysIff(part: string, d: Data, k: Kind, g: int -> string)
    requires HasKind(d, k)
    ensures ElementSays(part, d, k, g) <==> part == ElementText(d, k, g)
  {
    hide HasKind, ScalarSays, ScalarText;
    if k != KString {
      ScalarSaysIff(part, d, k, g);
    } else {
      var t := ScalarText(d, g);
      if part == ElementText(d, k, g) {
        assert part[1..|part| - 1] == t;
        ScalarSaysIff(t, d, k, g);
      }
      if ElementSays(part, d, k, g) {
        ScalarSaysIff(part[1..|part| - 1], d, k, g);
        assert part == "\"" + (part[1..|part| - 1] + "\"");
      }
    }
  }

  ghost predicate PartsSay(parts: seq<string>, ds: seq<Data>, k: Kind, g: int -> string) {
    |parts| == |ds| && forall i :: 0 <= i < |ds| ==> ElementSays(parts[i], ds[i], k, g)
  }

  /** The bracketed list of the elements, comma and blank between them. */
  ghost predicate ArraySays(text: string, ds: seq<Data>, k: Kind, g: int -> string) {
    exists parts :: PartsSay(parts, ds, k, g) && text == "[" + (JoinTexts(parts) + "]")
  }

  lemma {:induction false} PartsSayIff(parts: seq<string>, ds: seq<Data>, k: Kind, g: int -> string)
    requires forall i :: 0 <= i < |ds| ==> HasKind(ds[i], k)
    ensures PartsSay(parts, ds, k, g) <==> parts == ElementTexts(ds, k, g)
  {
    hide HasKind, ElementSays, ElementText;
    if |parts| == |ds| {
      forall i | 0 <= i < |ds|
        ensures ElementSays(parts[i], ds[i], k, g) <==> parts[i] == ElementText(ds[i], k, g)
      {
        ElementSaysIff(parts[i], ds[i], k, g);
      }
    }
  }

  ghost predicate CellSays(text: string, d: Data, ty: FieldType, g: int -> string) {
    match ty
    case Scalar(k) => ScalarSays(text, d, k, g)
    case Array(k) => ArraySays(text, Elements(d), k, g)
  }

  /** A cell's text says its value, and no other text does. */
  lemma {:induction false} CellSaysIff(text: string, d: Data, ty: FieldType, g: int -> string)
    requires Typed(d, ty)
    ensures CellSays(text, d, ty, g) <==> text == CellText(d, ty, g)
  {
    hide HasKind, ScalarSays, PartsSay, ElementTexts, JoinTexts, ScalarText;
    match ty
    case Scalar(k) => ScalarSaysIff(text, d, k, g);
    case Array(k) =>
      var ds := Elements(d);
      PartsSayIff(ElementTexts(ds, k, g), ds, k, g);
      if ArraySays(text, ds, k, g) {
        var parts :| PartsSay(parts, ds, k, g) && text == "[" + (JoinTexts(parts) + "]");
        PartsSayIff(parts, ds, k, g);
      }
  }

  // ---- What the client holds ----

  /** A row as the client holds it says the stored row: every column and both times under their names. */
  ghost predicate RowSays(m: map<string, string>, fields: seq<Field>, row: Row, g: int -> string)
    requires |row.values| == |fields|
  {
    && (forall j :: 0 <= j < |fields| ==> fields[j].name in m && CellSays(m[fields[j].name], row.values[j], fields[j].ty, g))
    && "time_created" in m && SaysInt(m["time_created"], row.created)
    && "time_updated" in m && SaysInt(m["time_updated"], row.updated)
  }

  ghost predicate HeadersSay(headers: seq<string>, fields: seq<Field>) {
    && |headers| == |fields| + 2
    && (forall j :: 0 <= j < |fields| ==> headers[j] == fields[j].name)
    && headers[|fields|] == "time_created" && headers[|fields| + 1] == "time_updated"
  }

  /** The client holds these columns and exactly these rows, in order. */
  ghost predicate ClientHolds(p: ClientTable.Parsed, fields: seq<Field>, rows: seq<Row>, g: int -> string)
    requires Shaped(fields, rows)
  {
    && p.Parsed? && HeadersSay(p.headers, fields) && |p.rows| == |rows|
    && forall i :: 0 <= i < |rows| ==> RowSays(p.rows[i], fields, rows[i], g)
  }

  ghost predicate RowsTyped(fields: seq<Field>, rows: seq<Row>)
    requires Shaped(fields, rows)
  {
    forall i, j :: 0 <= i < |rows| && 0 <= j < |fields| ==> Typed(rows[i].values[j], fields[j].ty)
  }

  lemma {:induction false} HeadersSayIff(headers: seq<string>, fields: seq<Field>)
    ensures HeadersSay(headers, fields) <==> headers == Headers(fields)
  {
    assert forall j :: 0 <= j < |fields| ==> Headers(fields)[j] == fields[j].name;
  }

  lemma {:induction false} RowSaysIff(m: map<string, string>, fields: seq<Field>, row: Row, g: int -> string)
    requires |row.values| == |fields| && forall j :: 0 <= j < |fields| ==> Typed(row.values[j], fields[j].ty)
    ensures RowSays(m, fields, row, g) <==>
      var headers, full := Headers(fields), FullRow(fields, row, g);
      forall j :: 0 <= j < |headers| ==> headers[j] in m && m[headers[j]] == full[j]
  {
    hide CellSays, SaysInt, CellText, IntText, Typed;
    var headers, full := Headers(fields), FullRow(fields, row, g);
    var n := |fields|;
    assert headers[n] == "time_created" && headers[n + 1] == "time_updated";
    assert full[n] == IntText(row.created) && full[n + 1] == IntText(row.updated);
    forall j | 0 <= j < n && headers[j] in m
      ensures CellSays(m[fields[j].name], row.values[j], fields[j].ty, g) <==> m[headers[j]] == full[j]
    {
      CellSaysIff(m[fields[j].name], row.values[j], fields[j].ty, g);
    }
    if "time_created" in m {
      SaysIntIff(m["time_created"], row.created);
    }
    if "time_updated" in m {
      SaysIntIff(m["time_updated"], row.updated);
    }
    if RowSays(m, fields, row, g) {
      forall j | 0 <= j < n + 2
        ensures headers[j] in m && m[headers[j]] == full[j]
      {
        if j < n {
          assert fields[j].name in m;
        }
      }
    }
  }

  /**
   * For every table the server formats: the client holds exactly the stored values, under
   * their names and with both times, if and only if there are rows and the names and rows
   * are readable.
   */
  lemma {:induction false} TableHoldsIff(fields: seq<Field>, rows: seq<Row>, g: int -> string)
    requires Shaped(fields, rows) && RowsTyped(fields, rows)
    ensures ClientHolds(ParseTable(FormatRows(fields, rows, g)), fields, rows, g)
       <==> && rows != [] && HeadersReadable(Headers(fields))
            && forall i :: 0 <= i < |rows| ==> Readable(fields, rows[i], g)
  {
    hide ParseTable, FormatRows, RowSays, Readable, HeadersReadable, FullRow, HeadersSay;
    TableRoundTripIff(fields, rows, g);
    var p, full := ParseTable(FormatRows(fields, rows, g)), FullRows(fields, rows, g);
    if p.Parsed? && |p.rows| == |rows| {
      HeadersSayIff(p.headers, fields);
      forall i | 0 <= i < |rows|
        ensures RowSays(p.rows[i], fields, rows[i], g) <==>
          forall j :: 0 <= j < |Headers(fields)| ==> Headers(fields)[j] in p.rows[i] && p.rows[i][Headers(fields)[j]] == full[i][j]
      {
        RowSaysIff(p.rows[i], fields, rows[i], g);
      }
    }
  }

  // ---- Which rows are readable ----

  /** Values whose text comes through: clean strings, array elements without bar or line feed. */
  ghost predicate ValueReadable(d: Data, ty: FieldType, g: int -> string) {
    match ty
    case Scalar(KString) => d.StrV? ==> Clean(d.s)
    case Scalar(KDouble) => d.DoubleV? ==> Clean(g(d.bits))
    case Scalar(_) => true
    case Array(k) => forall i :: 0 <= i < |Elements(d)| ==> ElementReadable(Elements(d)[i], g)
  }

  ghost predicate ElementReadable(d: Data, g: int -> string) {
    (d.StrV? ==> Inert(d.s)) && (d.DoubleV? ==> Inert(g(d.bits)))
  }

  /** Values that are not cut: strings, and doubles' texts, of at most 255 characters. */
  ghost predicate Uncut(d: Data, g: int -> string) {
    (d.StrV? ==> |d.s| <= 255) && (d.DoubleV? ==> |g(d.bits)| <= 255)
  }

  lemma {:induction false} IntTextClean(i: int)
    ensures Clean(IntText(i))
  {
    var t := IntText(i);
    assert forall k :: 0 <= k < |t| ==> IsDigit(t[k]) || t[k] == '-';
    TrimKeeps(t);
  }

  lemma {:induction false} WordClean(t: string)
    requires t == "true" || t == "false" || t == "NULL"
    ensures Clean(t)
  {
    TrimKeeps(t);
  }

  lemma {:induction false} ScalarCleanIff(d: Data, k: Kind, g: int -> string)
    requires HasKind(d, k)
    ensures Clean(ScalarText(d, g)) <==> ValueReadable(d, Scalar(k), g)
    ensures Inert(ScalarText(d, g)) <==> ElementReadable(d, g)
  {
    hide Clean, IntText;
    match k
    case KInt => IntTextClean(d.i); CleanInert(IntText(d.i));
    case KBool => WordClean(ScalarText(d, g)); CleanInert(ScalarText(d, g));
    case KString => WordClean("NULL"); CleanInert("NULL");
    case KDouble =>
  }

  lemma {:induction false} CleanInert(t: string)
    requires Clean(t)
    ensures Inert(t)
  {
  }

  lemma {:induction false} CellCleanIff(d: Data, ty: FieldType, g: int -> string)
    requires Typed(d, ty)
    ensures Clean(CellText(d, ty, g)) <==> ValueReadable(d, ty, g)
  {
    hide Clean, Inert, HasKind, ScalarText, ElementReadable, ArrayText;
    match ty
    case Scalar(k) => ScalarCleanIff(d, k, g);
    case Array(k) =>
      var ds := Elements(d);
      ArrayCleanIff(ds, k, g);
      forall i | 0 <= i < |ds|
        ensures Inert(ScalarText(ds[i], g)) <==> ElementReadable(ds[i], g)
      {
        ScalarCleanIff(ds[i], k, g);
      }
  }

  lemma {:induction false} NatTextLength(n: nat, k: nat, bound: nat)
    requires k > 0 && n < bound && bound == Ten(k)
    ensures |NatText(n)| <= k
    decreases k
  {
    if n >= 10 {
      NatTextLength(n / 10, k - 1, Ten(k - 1));
    }
  }

  function Ten(k: nat): nat {
    if k == 0 then 1 else 10 * Ten(k - 1)
  }

  lemma {:induction false} ScalarLength(d: Data, k: Kind, g: int -> string)
    requires HasKind(d, k)
    ensures |ScalarText(d, g)| <= 255 <==> Uncut(d, g)
  {
    hide NatText;
    if k == KInt {
      assert Ten(5) == 100000 && Ten(10) == 10000000000;
      NatTextLength(if d.i < 0 then -d.i else d.i, 10, Ten(10));
    }
  }

  /** Readability told from the values: it depends on strings, doubles' texts and equal names only. */
  lemma {:induction false} ReadableIff(fields: seq<Field>, row: Row, g: int -> string)
    requires |row.values| == |fields| && forall j :: 0 <= j < |fields| ==> Typed(row.values[j], fields[j].ty)
    ensures Readable(fields, row, g) <==>
      && (forall j :: 0 <= j < |fields| ==> ValueReadable(row.values[j], fields[j].ty, g))
      && (forall j :: 0 <= j < |fields| && fields[j].ty.Scalar? && LastOfName(Headers(fields), j) ==> Uncut(row.values[j], g))
      && Agree(Headers(fields), FullRow(fields, row, g))
  {
    hide Clean, CellText, IntText, Typed, ValueReadable, Uncut, LastOfName, Agree, Headers;
    var full, n := FullRow(fields, row, g), |fields|;
    IntTextClean(row.created);
    IntTextClean(row.updated);
    forall j | 0 <= j < n
      ensures full[j] == CellText(row.values[j], fields[j].ty, g)
      ensures Clean(full[j]) <==> ValueReadable(row.values[j], fields[j].ty, g)
      ensures fields[j].ty.Scalar? ==> (|full[j]| <= 255 <==> Uncut(row.values[j], g))
    {
      CellCleanIff(row.values[j], fields[j].ty, g);
      CellLength(row.values[j], fields[j].ty, g);
    }
    assert full[n] == IntText(row.created) && full[n + 1] == IntText(row.updated);
  }

  lemma {:induction false} CellLength(d: Data, ty: FieldType, g: int -> string)
    requires Typed(d, ty)
    ensures ty.Scalar? ==> (|CellText(d, ty, g)| <= 255 <==> Uncut(d, g))
  {
    hide Uncut, ScalarText, HasKind;
    if ty.Scalar? {
      ScalarLength(d, ty.kind, g);
    }
  }

  // ---- Array cells ----

  /** The client splits an array cell into texts that say its elements, exactly when no string holds a comma and a blank. */
  lemma {:induction false} ArrayElementsBackIff(ds: seq<Data>, k: Kind, g: int -> string)
    requires k != KDouble && forall i :: 0 <= i < |ds| ==> HasKind(ds[i], k)
    ensures var r := ParseArrayString(CellText(ArrayV(ds), Array(k), g));
            (|r| == |ds| && forall i :: 0 <= i < |ds| ==> ScalarSays(r[i], ds[i], k, g))
              <==> forall i :: 0 <= i < |ds| && ds[i].StrV? ==> !HasComma(ds[i].s)
  {
    hide HasKind, ScalarSays, ScalarText, HasComma, ParseArrayString, ArrayText;
    ArrayRoundTripIff(ds, k, g);
    var r := ParseArrayString(ArrayText(ds, k, g));
    forall i | 0 <= i < |ds|
      ensures HasComma(ScalarText(ds[i], g)) <==> ds[i].StrV? && HasComma(ds[i].s)
    {
      CommaOnlyInStrings(ds[i], k, g);
    }
    if |r| == |ds| {
      forall i | 0 <= i < |ds|
        ensures ScalarSays(r[i], ds[i], k, g) <==> r[i] == BareTexts(ds, g)[i]
      {
        ScalarSaysIff(r[i], ds[i], k, g);
      }
    }
  }

  lemma {:induction false} CommaOnlyInStrings(d: Data, k: Kind, g: int -> string)
    requires HasKind(d, k) && k != KDouble
    ensures HasComma(ScalarText(d, g)) <==> d.StrV? && HasComma(d.s)
  {
    if k != KString {
      PlainElement(d, k, g);
    } else if d.NullStr? {
      assert forall i :: 0 <= i < |"NULL"| ==> "NULL"[i] != ',';
    }
  }
}
