/** Lists of values: the counting pass and the parsing pass against the printed list. */
module ItemRoundTrip {
  import opened Values
  import opened Spans
  import opened Text
  import opened Printer
  import opened Parser
  import opened ValueRoundTrip

  /** A value of an ADD, or of an UP when marks are allowed, within the limits of both programs. */
  predicate ItemOk(item: Item, marks: bool) {
    match item
    case Ignored => marks
    case Value(ArrayV(ds)) => Homogeneous(ds) && |ds| <= MAX_ARRAY_LENGTH
    case Value(AppendV(d)) => marks && ScalarOk(d)
    case Value(d) => ScalarOk(d) && !(marks && d == StrV("_"))
  }

  predicate ItemsOk(items: seq<Item>, marks: bool) {
    items != [] && forall i :: 0 <= i < |items| ==> ItemOk(items[i], marks)
  }

  function ItemText(item: Item, marks: bool): string {
    if marks || item.Ignored? then FormatItem(item) else FormatValue(item.d)
  }

  function Texts(items: seq<Item>, marks: bool): (r: seq<string>)
    ensures |r| == |items|
  {
    seq(|items|, i requires 0 <= i < |items| => ItemText(items[i], marks))
  }

  function ListText(items: seq<Item>, marks: bool): string {
    Join(Texts(items, marks))
  }

  lemma {:induction false} ListHead(items: seq<Item>, marks: bool)
    requires items != []
    ensures |items| == 1 ==> ListText(items, marks) == ItemText(items[0], marks)
    ensures |items| > 1 ==> ListText(items, marks) == ItemText(items[0], marks) + (", " + ListText(items[1..], marks))
  {
    assert Texts(items, marks)[1..] == Texts(items[1..], marks);
  }

  // ---- Parsing a printed list ----

  lemma {:induction false} ItemTextAt(s: string, p: nat, item: Item, marks: bool, strtod: Strtod)
    requires ItemOk(item, marks) && HasAt(s, p, ItemText(item, marks))
    requires At(s, p + |ItemText(item, marks)|) in {',', '\0', ' ', '\t'}
    ensures p < |s| && !IsBlank(s[p])
    ensures ParseItem(s, p, marks, strtod) == OkItem(item, p + |ItemText(item, marks)|)
  {
    hide HasAt, ParseValue, FormatScalar, FormatArray, FormatArrayAppend, ScalarOk;
    match item
    case Ignored =>
      HasAtFirst(s, p, "_");
      SkipNone(s, p);
    case Value(ArrayV(ds)) =>
      ArrayTextAt(s, p, ds, strtod);
      SkipNone(s, p);
    case Value(AppendV(d)) =>
      AppendTextAt(s, p, d, strtod);
      SkipNone(s, p);
    case Value(d) =>
      ScalarTextAt(s, p, d, strtod);
      SkipNone(s, p);
  }

  lemma {:induction false} FirstItemAt(s: string, p: nat, items: seq<Item>, marks: bool, strtod: Strtod)
    requires ItemsOk(items, marks) && HasAt(s, p, ListText(items, marks)) && p + |ListText(items, marks)| == |s|
    ensures var q := p + |ItemText(items[0], marks)|;
            && p < |s| && !IsBlank(s[p])
            && ParseItem(s, p, marks, strtod) == OkItem(items[0], q)
            && (|items| == 1 ==> q == |s|)
            && (|items| > 1 ==>
                  && q + 1 < |s| && s[q] == ',' && s[q + 1] == ' '
                  && HasAt(s, q + 2, ListText(items[1..], marks))
                  && q + 2 + |ListText(items[1..], marks)| == |s|)
  {
    hide HasAt, ParseItem, ItemText, ListText, ItemOk;
    ListHead(items, marks);
    var e := ItemText(items[0], marks);
    if |items| > 1 {
      var rest := ListText(items[1..], marks);
      HasAtSplit(s, p, e, ", " + rest);
      HasAtSplit(s, p + |e|, ", ", rest);
      HasAtTwo(s, p + |e|, ',', ' ');
    }
    ItemTextAt(s, p, items[0], marks, strtod);
  }

  /** What a parse with a given count returns: missing slots padded, extra values dropped. */
  function Fitted(items: seq<Item>, count: nat): seq<Item> {
    if count >= |items| then items + seq(count - |items|, _ => DEFAULT_ITEM) else items[..count]
  }

  lemma {:induction false} FittedStep(acc: seq<Item>, items: seq<Item>, left: nat)
    requires items != [] && left > 0
    ensures acc + [items[0]] + Fitted(items[1..], left - 1) == acc + Fitted(items, left)
  {
  }

  lemma {:induction false} ItemsAt(
      s: string, p0: nat, p: nat, items: seq<Item>, left: nat, marks: bool, acc: seq<Item>, strtod: Strtod)
    requires ItemsOk(items, marks) && p0 <= |s| && SkipBlanks(s, p0) == p && left > 0
    requires HasAt(s, p, ListText(items, marks)) && p + |ListText(items, marks)| == |s|
    ensures ParseItems(s, p0, left, marks, strtod, acc) == Success(acc + Fitted(items, left))
    decreases |items|
  {
    hide HasAt, ParseItem, ItemText, ListText, Fitted, ItemOk;
    FirstItemAt(s, p, items, marks, strtod);
    var q := p + |ItemText(items[0], marks)|;
    SkipNone(s, q);
    FittedStep(acc, items, left);
    if |items| == 1 {
      FittedNone(left - 1);
      assert items[1..] == [];
    } else if left == 1 {
      FittedNone0(items[1..]);
      assert acc + [items[0]] + [] == acc + [items[0]];
    } else {
      FirstItemAt(s, q + 2, items[1..], marks, strtod);
      SkipOne(s, q + 1);
      ItemsAt(s, q + 1, q + 2, items[1..], left - 1, marks, acc + [items[0]], strtod);
    }
  }

  lemma {:induction false} FittedNone(left: nat)
    ensures Fitted([], left) == seq(left, _ => DEFAULT_ITEM)
  {
  }

  lemma {:induction false} FittedNone0(items: seq<Item>)
    ensures Fitted(items, 0) == []
  {
  }

  lemma {:induction false} FittedExact(items: seq<Item>, count: nat)
    ensures |Fitted(items, count)| == count
    ensures Fitted(items, count) == items <==> count == |items|
  {
  }

  /**
   * For any list of printable values, quotes and backslashes included: the list parses back
   * to itself if and only if the counting pass counts as many values as there are.
   */
  lemma {:induction false} ListParsesIff(items: seq<Item>, marks: bool, strtod: Strtod)
    requires ItemsOk(items, marks)
    ensures var s := ListText(items, marks);
            TokenizeItems(s, marks, strtod) == Success(items) <==> CountValues(s) == |items|
    ensures var r := TokenizeItems(ListText(items, marks), marks, strtod);
            r.Success? && |r.value| == |items| ==> r.value == items
  {
    hide HasAt, ParseItem, ItemText, ListText, Fitted, CountAll, ItemOk, ParseItems;
    var s := ListText(items, marks);
    assert s + [] == s;
    HasAtStart(s, []);
    FirstItemAt(s, 0, items, marks, strtod);
    SkipNone(s, 0);
    if CountValues(s) > 0 {
      ItemsAt(s, 0, 0, items, CountValues(s), marks, [], strtod);
      assert [] + Fitted(items, CountValues(s)) == Fitted(items, CountValues(s));
      FittedExact(items, CountValues(s));
    }
  }

  // ---- What the counting pass makes of the client's values ----

  /** A scalar under the counter: a string's own quotes toggle, its commas and brackets count outside them. */
  function CountScalar(st: Counter, d: Data): Counter {
    if d.StrV? then Count1(CountAll(Count1(st, '\"'), d.s), '\"') else st.(content := true)
  }

  function CountElements(st: Counter, ds: seq<Data>): Counter
    decreases |ds|
  {
    if ds == [] then st
    else if |ds| == 1 then CountScalar(st, ds[0])
    else CountElements(Count1(CountScalar(st, ds[0]), ','), ds[1..])
  }

  function CountItem(st: Counter, item: Item): Counter {
    match item
    case Ignored => st.(content := true)
    case Value(ArrayV(ds)) => Count1(CountElements(Count1(st, '['), ds), ']')
    case Value(AppendV(d)) => Count1(CountScalar(Count1(st, '['), d), ']')
    case Value(d) => CountScalar(st, d)
  }

  function CountItems(st: Counter, items: seq<Item>): Counter
    requires items != []
    decreases |items|
  {
    if |items| == 1 then CountItem(st, items[0])
    else CountItems(Count1(CountItem(st, items[0]), ','), items[1..])
  }

  /** The counting pass sees as many values as there are. */
  predicate CountsRight(items: seq<Item>) {
    items != [] && CountItems(START, items).commas + 1 == |items|
  }

  lemma {:induction false} CountConcat(st: Counter, a: string, b: string)
    ensures CountAll(st, a + b) == CountAll(CountAll(st, a), b)
    decreases |a|
  {
    if a == [] {
      assert a + b == b;
    } else {
      assert (a + b)[1..] == a[1..] + b;
      CountConcat(Count1(st, a[0]), a[1..], b);
    }
  }

  /** Characters the counter only notes as content. */
  predicate IsPlain(c: char) {
    c !in {'\"', '[', ']', ','} && !IsSpace(c)
  }

  lemma {:induction false} CountPlain(st: Counter, seg: string)
    requires seg != [] && forall i :: 0 <= i < |seg| ==> IsPlain(seg[i])
    ensures CountAll(st, seg) == st.(content := true)
    decreases |seg|
  {
    assert CountAll(Count1(st, seg[0]), seg[1..]) == CountAll(st, seg);
    if |seg| > 1 {
      CountPlain(Count1(st, seg[0]), seg[1..]);
    } else {
      assert seg[1..] == [];
    }
  }

  lemma {:induction false} CountOne(st: Counter, c: char)
    ensures CountAll(st, [c]) == Count1(st, c)
  {
    assert CountAll(Count1(st, c), [c][1..]) == Count1(st, c);
  }

  lemma {:induction false} CountContent(st: Counter, seg: string)
    requires st.content
    ensures CountAll(st, seg).content
    decreases |seg|
  {
    if seg != [] {
      CountContent(Count1(st, seg[0]), seg[1..]);
    }
  }

  /** Escaping changes nothing for a counter that has seen content. */
  lemma {:induction false} CountEscaped(st: Counter, str: string)
    requires st.content
    ensures CountAll(st, EscapeEach(str)) == CountAll(st, str)
    decreases |str|
  {
    hide EscapeChar;
    if str != [] {
      CountConcat(st, EscapeChar(str[0]), EscapeEach(str[1..]));
      CountEscapedChar(st, str[0]);
      CountEscaped(Count1(st, str[0]), str[1..]);
    }
  }

  lemma {:induction false} CountEscapedChar(st: Counter, c: char)
    requires st.content
    ensures CountAll(st, EscapeChar(c)) == Count1(st, c) && Count1(st, c).content
  {
    var e := EscapeChar(c);
    if |e| == 1 {
      CountOne(st, c);
    } else {
      assert e == [e[0]] + [e[1]];
      CountConcat(st, [e[0]], [e[1]]);
      CountOne(st, e[0]);
      CountOne(st, e[1]);
    }
  }

  lemma {:induction false} CountScalarText(st: Counter, d: Data)
    requires ScalarOk(d)
    ensures CountAll(st, FormatScalar(d)) == CountScalar(st, d) && CountScalar(st, d).content
  {
    match d
    case IntV(i) => CountPlain(st, IntText(i));
    case BoolV(b) => CountPlain(st, FormatScalar(d));
    case StrV(str) => CountStringText(st, str);
  }

  lemma {:induction false} CountStringText(st: Counter, str: string)
    ensures CountAll(st, FormatScalar(StrV(str))) == CountScalar(st, StrV(str)) && CountScalar(st, StrV(str)).content
  {
    hide EscapeString, CountAll;
    EscapeIsCharwise(str);
    var st1 := Count1(st, '\"');
    CountConcat(st, "\"", EscapeString(str) + "\"");
    CountOne(st, '\"');
    CountConcat(st1, EscapeString(str), "\"");
    CountEscaped(st1, str);
    CountContent(st1, str);
    CountOne(CountAll(st1, str), '\"');
  }

  lemma {:induction false} CountSeparator(st: Counter)
    requires st.content
    ensures CountAll(st, ", ") == Count1(st, ',') && Count1(st, ',').content
  {
    assert ", " == [','] + [' '];
    CountConcat(st, [','], [' ']);
    CountOne(st, ',');
    CountOne(Count1(st, ','), ' ');
  }

  lemma {:induction false} JoinNone(ds: seq<Data>)
    requires ds == []
    ensures Join(FormatScalars(ds)) == []
  {
  }

  lemma {:induction false} CountElementsText(st: Counter, ds: seq<Data>)
    requires st.content && forall i :: 0 <= i < |ds| ==> ScalarOk(ds[i])
    ensures CountAll(st, Join(FormatScalars(ds))) == CountElements(st, ds) && CountElements(st, ds).content
    decreases |ds|
  {
    hide FormatScalar, FormatScalars, ScalarOk, Join, CountScalar, Count1;
    if ds == [] {
      JoinNone(ds);
    } else {
      JoinHead(ds);
      CountScalarText(st, ds[0]);
      if |ds| > 1 {
        var st1 := CountScalar(st, ds[0]);
        CountConcat(st, FormatScalar(ds[0]), ", " + Join(FormatScalars(ds[1..])));
        CountConcat(st1, ", ", Join(FormatScalars(ds[1..])));
        CountSeparator(st1);
        CountElementsText(Count1(st1, ','), ds[1..]);
      }
    }
  }

  /** A bracketed text is its opening bracket, its body and its closing bracket. */
  lemma {:induction false} CountBracketed(st: Counter, opening: string, body: string)
    requires opening == "[" || opening == "[...+"
    ensures CountAll(st, opening + (body + "]")) == Count1(CountAll(Count1(st, '['), body), ']')
  {
    hide CountAll;
    var inner := Count1(st, '[');
    CountConcat(st, opening, body + "]");
    CountConcat(inner, body, "]");
    CountOne(CountAll(inner, body), ']');
    CountOne(st, '[');
    if opening == "[...+" {
      assert opening == "[" + "...+";
      CountConcat(st, "[", "...+");
      CountPlain(inner, "...+");
    }
  }

  lemma {:induction false} CountItemText(st: Counter, item: Item, marks: bool)
    requires ItemOk(item, marks)
    ensures CountAll(st, ItemText(item, marks)) == CountItem(st, item) && CountItem(st, item).content
  {
    hide FormatScalar, FormatScalars, ScalarOk, CountAll, Join, CountScalar, CountElements;
    var inner := Count1(st, '[');
    match item
    case Ignored => CountPlain(st, "_");
    case Value(ArrayV(ds)) =>
      CountBracketed(st, "[", Join(FormatScalars(ds)));
      CountElementsText(inner, ds);
    case Value(AppendV(d)) =>
      CountBracketed(st, "[...+", FormatScalar(d));
      CountScalarText(inner, d);
    case Value(d) => CountScalarText(st, d);
  }

  lemma {:induction false} CountListText(st: Counter, items: seq<Item>, marks: bool)
    requires ItemsOk(items, marks)
    ensures CountAll(st, ListText(items, marks)) == CountItems(st, items) && CountItems(st, items).content
    decreases |items|
  {
    hide ItemText, ListText, ItemOk, CountAll, CountItem, Count1;
    ListHead(items, marks);
    CountItemText(st, items[0], marks);
    if |items| > 1 {
      var st1 := CountItem(st, items[0]);
      CountConcat(st, ItemText(items[0], marks), ", " + ListText(items[1..], marks));
      CountConcat(st1, ", ", ListText(items[1..], marks));
      CountSeparator(st1);
      CountListText(Count1(st1, ','), items[1..], marks);
    }
  }

  /** The count of a printed list can be told from its values. */
  lemma {:induction false} CountsRightIff(items: seq<Item>, marks: bool)
    requires ItemsOk(items, marks)
    ensures CountValues(ListText(items, marks)) == |items| <==> CountsRight(items)
  {
    hide ListText, ItemOk, CountAll, CountItems;
    CountListText(START, items, marks);
  }

  // ---- Lists that are counted right ----

  predicate QuoteFree(d: Data) {
    d.StrV? ==> '\"' !in d.s
  }

  predicate ItemQuoteFree(item: Item) {
    match item
    case Ignored => true
    case Value(ArrayV(ds)) => forall i :: 0 <= i < |ds| ==> QuoteFree(ds[i])
    case Value(AppendV(d)) => QuoteFree(d)
    case Value(d) => QuoteFree(d)
  }

  lemma {:induction false} CountQuoted(st: Counter, seg: string)
    requires st.quoted && st.content && '\"' !in seg
    ensures CountAll(st, seg) == st
    decreases |seg|
  {
    if seg != [] {
      CountQuoted(st, seg[1..]);
    }
  }

  lemma {:induction false} CountFreeScalar(st: Counter, d: Data)
    requires !st.quoted && QuoteFree(d)
    ensures CountScalar(st, d) == st.(content := true)
  {
    if d.StrV? {
      CountQuoted(st.(quoted := true, content := true), d.s);
    }
  }

  /** Inside brackets the separators do not count. */
  lemma {:induction false} CountFreeElements(st: Counter, ds: seq<Data>)
    requires !st.quoted && st.depth > 0 && st.content && forall i :: 0 <= i < |ds| ==> QuoteFree(ds[i])
    ensures CountElements(st, ds) == st
    decreases |ds|
  {
    hide QuoteFree, CountScalar;
    if ds != [] {
      CountFreeScalar(st, ds[0]);
      if |ds| > 1 {
        CountFreeElements(st, ds[1..]);
      }
    }
  }

  lemma {:induction false} CountFreeItem(st: Counter, item: Item)
    requires !st.quoted && ItemQuoteFree(item)
    ensures CountItem(st, item) == st.(content := true)
  {
    hide QuoteFree, CountScalar, CountElements;
    var inner := Count1(st, '[');
    match item
    case Ignored =>
    case Value(ArrayV(ds)) => CountFreeElements(inner, ds);
    case Value(AppendV(d)) => CountFreeScalar(inner, d);
    case Value(d) => CountFreeScalar(st, d);
  }

  lemma {:induction false} CountFreeItems(st: Counter, items: seq<Item>)
    requires !st.quoted && st.depth == 0 && items != []
    requires forall i :: 0 <= i < |items| ==> ItemQuoteFree(items[i])
    ensures CountItems(st, items).commas == st.commas + |items| - 1
    decreases |items|
  {
    hide ItemQuoteFree, CountItem;
    CountFreeItem(st, items[0]);
    if |items| > 1 {
      CountFreeItems(Count1(st.(content := true), ','), items[1..]);
    }
  }

  /** Without quotes in its strings, a printed list is counted right, so it parses back exactly. */
  lemma {:induction false} QuoteFreeListParses(items: seq<Item>, marks: bool, strtod: Strtod)
    requires ItemsOk(items, marks) && forall i :: 0 <= i < |items| ==> ItemQuoteFree(items[i])
    ensures CountsRight(items)
    ensures TokenizeItems(ListText(items, marks), marks, strtod) == Success(items)
  {
    hide ItemText, ListText, ItemOk, ItemQuoteFree, CountAll, TokenizeItems, CountItems, CountValues;
    CountFreeItems(START, items);
    CountsRightIff(items, marks);
    ListParsesIff(items, marks, strtod);
  }

  /** A quote and a comma in one string: one value is printed, two are counted and returned. */
  lemma {:induction false} QuotedCommaMiscounts(strtod: Strtod)
    ensures var items := [Value(StrV("\","))];
            && ItemsOk(items, false) && !CountsRight(items)
            && TokenizeItems(ListText(items, false), false, strtod) != Success(items)
  {
    hide TokenizeItems, ListText, CountValues;
    var items := [Value(StrV("\","))];
    QuotedCommaCount();
    CountsRightIff(items, false);
    ListParsesIff(items, false, strtod);
  }

  lemma {:induction false} QuotedCommaCount()
    ensures CountItems(START, [Value(StrV("\","))]).commas == 1
  {
    var st := Counter(0, true, true, 0);
    assert CountAll(st, "\",") == CountAll(Count1(st, '\"'), "\","[1..]);
    assert CountAll(Count1(st, '\"'), "\","[1..]) == CountAll(Count1(Count1(st, '\"'), ','), "\","[1..][1..]);
  }
}
