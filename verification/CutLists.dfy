/** A printed value list cut at one of its parentheses never parses back: the cut falls inside a string. */
module CutLists {
  import opened Values
  import opened Spans
  import opened Text
  import opened Printer
  import opened Parser
  import opened ValueRoundTrip
  import opened ItemRoundTrip

  /** The text t ends, from p on, in the part of e before its parenthesis at k. */
  ghost predicate CutAt(t: string, p: nat, e: string, k: nat) {
    k < |e| && e[k] == ')' && p + k == |t| && HasAt(t, p, e[..k])
  }

  /** A cut behind the first part of a text leaves that part whole. */
  lemma {:induction false} CutBehind(t: string, p: nat, a: string, b: string, k: nat)
    requires CutAt(t, p, a + b, k) && k >= |a|
    ensures HasAt(t, p, a) && CutAt(t, p + |a|, b, k - |a|)
  {
    assert (a + b)[..k] == a + b[..k - |a|];
    HasAtSplit(t, p, a, b[..k - |a|]);
  }

  lemma {:induction false} CutWithin(t: string, p: nat, a: string, b: string, k: nat)
    requires CutAt(t, p, a + b, k) && k < |a|
    ensures CutAt(t, p, a, k)
  {
    assert (a + b)[..k] == a[..k];
  }

  lemma {:induction false} CutBehindFree(t: string, p: nat, a: string, b: string, k: nat)
    requires CutAt(t, p, a + b, k) && ')' !in a
    ensures HasAt(t, p, a) && CutAt(t, p + |a|, b, k - |a|) && k >= |a|
  {
    assert k >= |a|;
    CutBehind(t, p, a, b, k);
  }

  // ---- Strings ----

  lemma {:induction false} CutBody(t: string, p: nat, str: string, k: nat)
    requires CutAt(t, p, EscapeEach(str), k)
    ensures StringBody(t, p) == None
    decreases |str|
  {
    hide HasAt, EscapeChar;
    var e, rest := EscapeChar(str[0]), EscapeEach(str[1..]);
    EscapedParen(str[0]);
    if k < |e| {
      CutWithin(t, p, e, rest, k);
    } else {
      CutBehind(t, p, e, rest, k);
      CutBody(t, p + |e|, str[1..], k - |e|);
      UnclosedChar(t, p, str[0]);
    }
  }

  lemma {:induction false} EscapedParen(c: char)
    ensures forall i :: 0 <= i < |EscapeChar(c)| && EscapeChar(c)[i] == ')' ==> i == 0
    ensures |EscapeChar(c)| >= 1
  {
  }

  lemma {:induction false} UnclosedChar(t: string, p: nat, c: char)
    requires HasAt(t, p, EscapeChar(c)) && p + |EscapeChar(c)| <= |t| && StringBody(t, p + |EscapeChar(c)|) == None
    ensures StringBody(t, p) == None
  {
    if |EscapeChar(c)| == 2 {
      HasAtTwo(t, p, EscapeChar(c)[0], EscapeChar(c)[1]);
    } else {
      HasAtFirst(t, p, [c]);
    }
  }

  /** Only strings print parentheses; a scalar cut at one is an unclosed string. */
  lemma {:induction false} CutScalar(t: string, p: nat, d: Data, k: nat, strtod: Strtod)
    requires ScalarOk(d) && CutAt(t, p, FormatScalar(d), k)
    ensures k > 0 && p < |t| && t[p] == '\"' && ParseValue(t, p, strtod).Err?
  {
    hide HasAt, EscapeString, StringBody, WordAt, ParseNumber, ParseElements, EscapeEach;
    NoParenOutsideStrings(d, k);
    var e := EscapeEach(d.s);
    EscapeIsCharwise(d.s);
    CutBehindFree(t, p, "\"", e + "\"", k);
    assert k - 1 < |e|;
    CutWithin(t, p + 1, e, "\"", k - 1);
    CutBody(t, p + 1, d.s, k - 1);
    HasAtFirst(t, p, "\"");
    SkipNone(t, p);
  }

  lemma {:induction false} NoParenOutsideStrings(d: Data, k: nat)
    requires ScalarOk(d) && k < |FormatScalar(d)| && FormatScalar(d)[k] == ')'
    ensures d.StrV?
  {
    hide EscapeString;
  }

  lemma {:induction false} ScalarStart(d: Data)
    requires ScalarOk(d)
    ensures FormatScalar(d) != [] && FormatScalar(d)[0] != ')' && FormatScalar(d)[0] != ']' && FormatScalar(d)[0] != '.'
    ensures !IsBlank(FormatScalar(d)[0])
  {
  }

  // ---- Arrays ----

  lemma {:induction false} CutElements(t: string, p0: nat, p: nat, ds: seq<Data>, k: nat, acc: seq<Data>, strtod: Strtod)
    requires ds != [] && forall i :: 0 <= i < |ds| ==> ScalarOk(ds[i])
    requires p0 <= |t| && SkipBlanks(t, p0) == p && CutAt(t, p, Join(FormatScalars(ds)), k)
    ensures ParseElements(t, p0, strtod, acc).Err?
    decreases |ds|
  {
    hide HasAt, ParseValue, FormatScalar, FormatScalars, Join, ScalarOk, Tag, CutAt, SkipBlanks;
    JoinHead(ds);
    LeadingBlanks(t, p0, strtod);
    var e := FormatScalar(ds[0]);
    if k < |e| {
      CutFirst(t, p, e, if |ds| > 1 then ", " + Join(FormatScalars(ds[1..])) else [], k);
      CutScalar(t, p, ds[0], k, strtod);
    } else {
      CutLonger(t, p, Join(FormatScalars(ds)), k);
      var rest := Join(FormatScalars(ds[1..]));
      CutBehind(t, p, e, ", " + rest, k);
      CutBehindFree(t, p + |e|, ", ", rest, k - |e|);
      JoinHead(ds[1..]);
      ScalarStart(ds[1]);
      CutNext(t, p + |e|, rest, k - |e| - 2);
      ScalarTextAt(t, p, ds[0], strtod);
      CutElements(t, p + |e| + 1, p + |e| + 2, ds[1..], k - |e| - 2, acc + [ds[0]], strtod);
    }
  }

  lemma {:induction false} CutLonger(t: string, p: nat, e: string, k: nat)
    requires CutAt(t, p, e, k)
    ensures k < |e|
  {
  }

  lemma {:induction false} CutFirst(t: string, p: nat, e: string, rest: string, k: nat)
    requires CutAt(t, p, e + rest, k) || (rest == [] && CutAt(t, p, e, k))
    requires k < |e|
    ensures CutAt(t, p, e, k)
  {
    if rest == [] {
      assert e + rest == e;
    } else {
      CutWithin(t, p, e, rest, k);
    }
  }

  /** After a whole value come its comma, one blank and the start of the next value. */
  lemma {:induction false} CutNext(t: string, q: nat, rest: string, k: nat)
    requires HasAt(t, q, ", ") && CutAt(t, q + 2, rest, k) && rest != [] && rest[0] != ')' && !IsBlank(rest[0])
    ensures q + 2 < |t| && At(t, q) == ',' && SkipBlanks(t, q) == q && SkipBlanks(t, q + 1) == q + 2
  {
    HasAtTwo(t, q, ',', ' ');
    HasAtFirst(t, q + 2, rest[..k]);
    SkipNone(t, q);
    SkipOne(t, q + 1);
  }

  lemma {:induction false} CutArray(t: string, p: nat, ds: seq<Data>, k: nat, strtod: Strtod)
    requires Homogeneous(ds) && CutAt(t, p, FormatArray(ds), k)
    ensures p < |t| && t[p] == '[' && ParseValue(t, p, strtod).Err?
  {
    hide HasAt, FormatScalar, FormatScalars, ScalarOk, Tag, WordAt, ParseString, ParseNumber, ParseElements, CutAt, Join;
    var body := Join(FormatScalars(ds));
    CutBehindFree(t, p, "[", body + "]", k);
    HasAtFirst(t, p, "[");
    NoWordAt(t, p, '[');
    SkipNone(t, p);
    CutBeforeLast(t, p + 1, body, k - 1);
    CutLonger(t, p + 1, body, k - 1);
    JoinSome(ds);
    JoinHead(ds);
    ScalarStart(ds[0]);
    CutStart(t, p + 1, body, k - 1);
    CutElements(t, p + 1, p + 1, ds, k - 1, [], strtod);
  }

  lemma {:induction false} JoinSome(ds: seq<Data>)
    requires Join(FormatScalars(ds)) != []
    ensures ds != []
  {
  }

  /** A closing bracket is no parenthesis, so the cut falls before it. */
  lemma {:induction false} CutBeforeLast(t: string, p: nat, body: string, k: nat)
    requires CutAt(t, p, body + "]", k)
    ensures CutAt(t, p, body, k)
  {
    assert k < |body|;
    CutWithin(t, p, body, "]", k);
  }

  lemma {:induction false} CutStart(t: string, p: nat, e: string, k: nat)
    requires CutAt(t, p, e, k) && e != [] && e[0] != ')' && !IsBlank(e[0])
    ensures p < |t| && t[p] == e[0] && SkipBlanks(t, p) == p
  {
    HasAtFirst(t, p, e[..k]);
    SkipNone(t, p);
  }

  lemma {:induction false} CutAppend(t: string, p: nat, d: Data, k: nat, strtod: Strtod)
    requires ScalarOk(d) && CutAt(t, p, FormatArrayAppend(d), k)
    ensures p < |t| && t[p] == '[' && ParseValue(t, p, strtod).Err?
  {
    hide HasAt, FormatScalar, ScalarOk, WordAt, ParseString, ParseNumber, ParseElements, CutAt, ParseValue;
    CutBehindFree(t, p, "[...+", FormatScalar(d) + "]", k);
    DotsAt(t, p);
    NoWordAt(t, p, '[');
    SkipNone(t, p);
    SkipNone(t, p + 1);
    CutBeforeLast(t, p + 5, FormatScalar(d), k - 5);
    CutScalar(t, p + 5, d, k - 5, strtod);
    AppendFails(t, p, strtod);
  }

  lemma {:induction false} AppendFails(t: string, p: nat, strtod: Strtod)
    requires p + 5 <= |t| && t[p] == '[' && t[p + 1] == '.' && t[p + 2] == '.' && t[p + 3] == '.' && t[p + 4] == '+'
    requires ParseValue(t, p + 5, strtod).Err?
    ensures ParseValue(t, p, strtod).Err?
  {
    hide WordAt, ParseString, ParseNumber, ParseElements;
    NoWordAt(t, p, '[');
    SkipNone(t, p);
    SkipNone(t, p + 1);
  }

  // ---- Items ----

  lemma {:induction false} CutItem(t: string, p: nat, item: Item, marks: bool, k: nat, strtod: Strtod)
    requires ItemOk(item, marks) && CutAt(t, p, ItemText(item, marks), k)
    ensures ParseItem(t, p, marks, strtod).ErrItem?
  {
    hide HasAt, ParseValue, FormatScalar, FormatArray, FormatArrayAppend, ScalarOk, CutAt;
    match item {
      case Ignored => CutMark(t, p, k);
      case Value(ArrayV(ds)) => CutArray(t, p, ds, k, strtod); SkipNone(t, p);
      case Value(AppendV(d)) => CutAppend(t, p, d, k, strtod); SkipNone(t, p);
      case Value(d) => CutScalar(t, p, d, k, strtod); SkipNone(t, p);
    }
  }

  lemma {:induction false} CutMark(t: string, p: nat, k: nat)
    ensures !CutAt(t, p, "_", k)
  {
  }

  lemma {:induction false} ItemStart(item: Item, marks: bool)
    requires ItemOk(item, marks)
    ensures ItemText(item, marks) != [] && ItemText(item, marks)[0] != ')' && !IsBlank(ItemText(item, marks)[0])
  {
    hide FormatScalar, ScalarOk;
    if item.Value? && !item.d.ArrayV? && !item.d.AppendV? {
      ScalarStart(item.d);
    }
  }

  /** The value loop on a cut list fails, or stops before it has as many values as were printed. */
  lemma {:induction false} CutItems(
      t: string, p0: nat, p: nat, items: seq<Item>, marks: bool, k: nat, left: nat, acc: seq<Item>, strtod: Strtod)
    requires ItemsOk(items, marks) && p0 <= |t| && SkipBlanks(t, p0) == p && CutAt(t, p, ListText(items, marks), k)
    ensures var r := ParseItems(t, p0, left, marks, strtod, acc); r.Success? ==> |r.value| < |acc| + |items|
    decreases |items|
  {
    hide HasAt, ParseItem, ItemText, ListText, ItemOk, CutAt, SkipBlanks;
    ListHead(items, marks);
    var e := ItemText(items[0], marks);
    if left == 0 {
    } else if k < |e| {
      CutFirst(t, p, e, if |items| > 1 then ", " + ListText(items[1..], marks) else [], k);
      CutItem(t, p, items[0], marks, k, strtod);
    } else {
      CutLonger(t, p, ListText(items, marks), k);
      var rest := ListText(items[1..], marks);
      CutBehind(t, p, e, ", " + rest, k);
      CutBehindFree(t, p + |e|, ", ", rest, k - |e|);
      ListHead(items[1..], marks);
      ItemStart(items[1], marks);
      CutNext(t, p + |e|, rest, k - |e| - 2);
      ItemTextAt(t, p, items[0], marks, strtod);
      CutItems(t, p + |e| + 1, p + |e| + 2, items[1..], marks, k - |e| - 2, left - 1, acc + [items[0]], strtod);
    }
  }

  /** A printed list cut at a parenthesis never yields as many values as were printed. */
  lemma {:induction false} CutListFails(items: seq<Item>, marks: bool, k: nat, strtod: Strtod)
    requires ItemsOk(items, marks) && k < |ListText(items, marks)| && ListText(items, marks)[k] == ')'
    ensures var r := TokenizeItems(ListText(items, marks)[..k], marks, strtod); r.Success? ==> |r.value| < |items|
  {
    hide HasAt, ItemText, ListText, ItemOk, ParseItems, CountValues;
    var s := ListText(items, marks);
    var t := s[..k];
    assert t + [] == t;
    HasAtStart(t, []);
    ListHead(items, marks);
    ItemStart(items[0], marks);
    CutStart(t, 0, s, k);
    CutItems(t, 0, 0, items, marks, k, CountValues(t), [], strtod);
  }
}
