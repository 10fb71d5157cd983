/** What the paren split makes of a printed value list, told from the values alone. */
module ParenSplit {
  import opened Values
  import opened Spans
  import opened Text
  import opened Printer
  import opened Parser
  import opened ValueRoundTrip
  import opened ItemRoundTrip

  // ---- The scan over the client's values ----

  /** The scan of the split: open parentheses and whether it believes to be in quotes, or already shut. */
  datatype Scan = Scanning(depth: nat, quoted: bool) | Shut

  const OPENED: Scan := Scanning(1, false)

  function ScanChar(st: Scan, c: char): Scan {
    if st.Shut? || st.quoted then st
    else if c == '(' then st.(depth := st.depth + 1)
    else if c == ')' then if st.depth <= 1 then Shut else st.(depth := st.depth - 1)
    else st
  }

  function ScanChars(st: Scan, str: string): Scan
    decreases |str|
  {
    if str == [] then st else ScanChars(ScanChar(st, str[0]), str[1..])
  }

  function Toggled(st: Scan): Scan {
    if st.Shut? then st else st.(quoted := !st.quoted)
  }

  predicate EndsInBackslash(str: string) {
    str != [] && str[|str| - 1] == '\\'
  }

  /**
   * A string: its opening quote toggles, its parentheses count when the scan believes to be
   * outside quotes, and a final backslash hides its closing quote.
   */
  function ScanString(st: Scan, str: string): Scan {
    var body := ScanChars(Toggled(st), str);
    if EndsInBackslash(str) then body else Toggled(body)
  }

  function ScanScalar(st: Scan, d: Data): Scan {
    if d.StrV? then ScanString(st, d.s) else st
  }

  function ScanScalars(st: Scan, ds: seq<Data>): Scan
    decreases |ds|
  {
    if ds == [] then st else ScanScalars(ScanScalar(st, ds[0]), ds[1..])
  }

  function ScanItem(st: Scan, item: Item): Scan {
    match item
    case Ignored => st
    case Value(ArrayV(ds)) => ScanScalars(st, ds)
    case Value(AppendV(d)) => ScanScalar(st, d)
    case Value(d) => ScanScalar(st, d)
  }

  function ScanItems(st: Scan, items: seq<Item>): Scan
    decreases |items|
  {
    if items == [] then st else ScanItems(ScanItem(st, items[0]), items[1..])
  }

  /** The scan leaves the list as it entered it. */
  predicate SplitsRight(items: seq<Item>) {
    ScanItems(OPENED, items) == OPENED
  }

  // ---- The scan is the split ----

  /** A quote at p would toggle. */
  predicate Outside(s: string, open: nat, p: nat) {
    open < p <= |s| && (p == open + 1 || s[p - 1] != '\\')
  }

  /** Scanning s from p to q takes the scan from st to st'. */
  ghost predicate Carries(s: string, open: nat, p: nat, q: nat, st: Scan, st': Scan) {
    && open < p <= q <= |s| && (st.Shut? ==> st'.Shut?)
    && (st.Scanning? && st'.Scanning? ==>
          CloseParen(s, open, p, st.depth, st.quoted) == CloseParen(s, open, q, st'.depth, st'.quoted))
    && (st.Scanning? && st'.Shut? ==>
          CloseParen(s, open, p, st.depth, st.quoted).Some? && CloseParen(s, open, p, st.depth, st.quoted).value < q)
  }

  lemma {:induction false} CarriesOn(s: string, open: nat, p: nat, q: nat, r: nat, st: Scan, st1: Scan, st2: Scan)
    requires Carries(s, open, p, q, st, st1) && Carries(s, open, q, r, st1, st2)
    ensures Carries(s, open, p, r, st, st2)
  {
  }

  predicate IsInert(c: char) {
    c !in {'\"', '(', ')', '\\'}
  }

  lemma {:induction false} CarryInert(s: string, open: nat, p: nat, e: string, st: Scan)
    requires Outside(s, open, p) && HasAt(s, p, e) && forall i :: 0 <= i < |e| ==> IsInert(e[i])
    ensures Outside(s, open, p + |e|) && Carries(s, open, p, p + |e|, st, st)
    decreases |e|
  {
    if e != [] {
      HasAtFirst(s, p, e);
      CarryInert(s, open, p + 1, e[1..], st);
    }
  }

  /** One escaped character never toggles: a quote in it has a backslash before it. */
  lemma {:induction false} CarryEscaped(s: string, open: nat, p: nat, c: char, st: Scan)
    requires open + 1 < p && HasAt(s, p, EscapeChar(c))
    ensures p + |EscapeChar(c)| <= |s| && (s[p + |EscapeChar(c)| - 1] == '\\' <==> c == '\\')
    ensures Carries(s, open, p, p + |EscapeChar(c)|, st, ScanChar(st, c))
  {
    if |EscapeChar(c)| == 2 {
      HasAtTwo(s, p, EscapeChar(c)[0], EscapeChar(c)[1]);
      if st.Scanning? {
        assert CloseParen(s, open, p, st.depth, st.quoted) == CloseParen(s, open, p + 1, st.depth, st.quoted);
      }
    } else {
      HasAtFirst(s, p, [c]);
    }
  }

  lemma {:induction false} CarryBody(s: string, open: nat, p: nat, str: string, st: Scan)
    requires open + 1 < p <= |s| && HasAt(s, p, EscapeEach(str))
    ensures p + |EscapeEach(str)| <= |s|
    ensures Carries(s, open, p, p + |EscapeEach(str)|, st, ScanChars(st, str))
    ensures str != [] ==> (s[p + |EscapeEach(str)| - 1] == '\\' <==> EndsInBackslash(str))
    decreases |str|
  {
    hide HasAt, EscapeChar, CloseParen, ScanChar;
    if str != [] {
      var e, rest := EscapeChar(str[0]), EscapeEach(str[1..]);
      HasAtSplit(s, p, e, rest);
      CarryEscaped(s, open, p, str[0], st);
      CarryBody(s, open, p + |e|, str[1..], ScanChar(st, str[0]));
      CarriesOn(s, open, p, p + |e|, p + |e| + |rest|, st, ScanChar(st, str[0]), ScanChars(st, str));
      if |str| > 1 {
        assert str[1..][|str| - 2] == str[|str| - 1];
      }
    }
  }

  lemma {:induction false} CarryQuote(s: string, open: nat, p: nat, st: Scan)
    requires open < p && HasAt(s, p, "\"")
    ensures p < |s| && Outside(s, open, p + 1)
    ensures Carries(s, open, p, p + 1, st, if Outside(s, open, p) then Toggled(st) else st)
  {
    HasAtFirst(s, p, "\"");
  }

  lemma {:induction false} CarryString(s: string, open: nat, p: nat, str: string, st: Scan)
    requires Outside(s, open, p) && HasAt(s, p, FormatScalar(StrV(str)))
    ensures var q := p + |FormatScalar(StrV(str))|;
            Outside(s, open, q) && Carries(s, open, p, q, st, ScanString(st, str))
  {
    hide EscapeString, HasAt, Carries, EscapeEach, ScanChars, Toggled;
    EscapeIsCharwise(str);
    var e := EscapeEach(str);
    HasAtSplit(s, p, "\"", e + "\"");
    HasAtSplit(s, p + 1, e, "\"");
    CarryQuote(s, open, p, st);
    var st1 := Toggled(st);
    CarryBody(s, open, p + 1, str, st1);
    var st2, q := ScanChars(st1, str), p + 1 + |e|;
    CarryQuote(s, open, q, st2);
    HasAtFirst(s, p, "\"");
    EscapeEmpty(str);
    CarriesOn(s, open, p, p + 1, q, st, st1, st2);
    CarriesOn(s, open, p, q, q + 1, st, st2, ScanString(st, str));
  }

  lemma {:induction false} EscapeEmpty(str: string)
    ensures EscapeEach(str) == [] <==> str == []
  {
  }

  lemma {:induction false} CarryScalar(s: string, open: nat, p: nat, d: Data, st: Scan)
    requires Outside(s, open, p) && ScalarOk(d) && HasAt(s, p, FormatScalar(d))
    ensures var q := p + |FormatScalar(d)|; Outside(s, open, q) && Carries(s, open, p, q, st, ScanScalar(st, d))
  {
    hide HasAt, Carries, EscapeString, Outside, ScanString;
    match d
    case IntV(i) => CarryInert(s, open, p, IntText(i), st);
    case BoolV(b) => CarryInert(s, open, p, FormatScalar(d), st);
    case StrV(str) => CarryString(s, open, p, str, st);
  }

  lemma {:induction false} CarryElements(s: string, open: nat, p: nat, ds: seq<Data>, st: Scan)
    requires Outside(s, open, p) && HasAt(s, p, Join(FormatScalars(ds)))
    requires forall i :: 0 <= i < |ds| ==> ScalarOk(ds[i])
    ensures var q := p + |Join(FormatScalars(ds))|; Outside(s, open, q) && Carries(s, open, p, q, st, ScanScalars(st, ds))
    decreases |ds|
  {
    hide HasAt, FormatScalar, FormatScalars, ScalarOk, Join, Carries, ScanScalar, Outside;
    if ds == [] {
      JoinNone(ds);
      CarryNothing(s, open, p, st);
    } else {
      JoinHead(ds);
      var e, st1 := FormatScalar(ds[0]), ScanScalar(st, ds[0]);
      if |ds| == 1 {
        CarryScalar(s, open, p, ds[0], st);
        ScanOne(st, ds);
      } else {
        var rest := Join(FormatScalars(ds[1..]));
        HasAtSplit(s, p, e, ", " + rest);
        HasAtSplit(s, p + |e|, ", ", rest);
        CarryScalar(s, open, p, ds[0], st);
        CarryInert(s, open, p + |e|, ", ", st1);
        CarryElements(s, open, p + |e| + 2, ds[1..], st1);
        CarriesOn(s, open, p, p + |e|, p + |e| + 2, st, st1, st1);
        CarriesOn(s, open, p, p + |e| + 2, p + |e| + 2 + |rest|, st, st1, ScanScalars(st, ds));
      }
    }
  }

  lemma {:induction false} ScanOne(st: Scan, ds: seq<Data>)
    requires |ds| == 1
    ensures ScanScalars(st, ds) == ScanScalar(st, ds[0])
  {
  }

  lemma {:induction false} CarryNothing(s: string, open: nat, p: nat, st: Scan)
    requires Outside(s, open, p)
    ensures Carries(s, open, p, p, st, st)
  {
  }

  lemma {:induction false} CarryBracketed(s: string, open: nat, p: nat, opening: string, body: string, st: Scan, st': Scan)
    requires Outside(s, open, p) && HasAt(s, p, opening + (body + "]"))
    requires forall i :: 0 <= i < |opening| ==> IsInert(opening[i])
    requires var q := p + |opening|;
             Outside(s, open, q) ==> Outside(s, open, q + |body|) && Carries(s, open, q, q + |body|, st, st')
    ensures var q := p + |opening + (body + "]")|; Outside(s, open, q) && Carries(s, open, p, q, st, st')
  {
    hide HasAt, Carries, Outside;
    HasAtSplit(s, p, opening, body + "]");
    var q := p + |opening|;
    HasAtSplit(s, q, body, "]");
    CarryInert(s, open, p, opening, st);
    CarryInert(s, open, q + |body|, "]", st');
    CarriesOn(s, open, p, q, q + |body|, st, st, st');
    CarriesOn(s, open, p, q + |body|, q + |body| + 1, st, st', st');
  }

  lemma {:induction false} CarryItem(s: string, open: nat, p: nat, item: Item, marks: bool, st: Scan)
    requires Outside(s, open, p) && ItemOk(item, marks) && HasAt(s, p, ItemText(item, marks))
    ensures var q := p + |ItemText(item, marks)|; Outside(s, open, q) && Carries(s, open, p, q, st, ScanItem(st, item))
  {
    hide HasAt, FormatScalar, FormatScalars, ScalarOk, Join, Carries, Outside, ScanScalar, ScanScalars;
    match item
    case Ignored => CarryInert(s, open, p, "_", st);
    case Value(ArrayV(ds)) =>
      var body := Join(FormatScalars(ds));
      HasAtSplit(s, p, "[", body + "]");
      HasAtSplit(s, p + 1, body, "]");
      if Outside(s, open, p + 1) {
        CarryElements(s, open, p + 1, ds, st);
      }
      CarryBracketed(s, open, p, "[", body, st, ScanScalars(st, ds));
    case Value(AppendV(d)) =>
      HasAtSplit(s, p, "[...+", FormatScalar(d) + "]");
      HasAtSplit(s, p + 5, FormatScalar(d), "]");
      if Outside(s, open, p + 5) {
        CarryScalar(s, open, p + 5, d, st);
      }
      CarryBracketed(s, open, p, "[...+", FormatScalar(d), st, ScanScalar(st, d));
    case Value(d) => CarryScalar(s, open, p, d, st);
  }

  lemma {:induction false} CarryList(s: string, open: nat, p: nat, items: seq<Item>, marks: bool, st: Scan)
    requires Outside(s, open, p) && ItemsOk(items, marks) && HasAt(s, p, ListText(items, marks))
    ensures var q := p + |ListText(items, marks)|; Outside(s, open, q) && Carries(s, open, p, q, st, ScanItems(st, items))
    decreases |items|
  {
    hide HasAt, ItemText, ListText, ItemOk, Carries, Outside, ScanItem;
    ListHead(items, marks);
    var e, st1 := ItemText(items[0], marks), ScanItem(st, items[0]);
    if |items| == 1 {
      CarryItem(s, open, p, items[0], marks, st);
      ScanOneItem(st, items);
    } else {
      var rest := ListText(items[1..], marks);
      HasAtSplit(s, p, e, ", " + rest);
      HasAtSplit(s, p + |e|, ", ", rest);
      CarryItem(s, open, p, items[0], marks, st);
      CarryInert(s, open, p + |e|, ", ", st1);
      CarryList(s, open, p + |e| + 2, items[1..], marks, st1);
      CarriesOn(s, open, p, p + |e|, p + |e| + 2, st, st1, st1);
      CarriesOn(s, open, p, p + |e| + 2, p + |e| + 2 + |rest|, st, st1, ScanItems(st, items));
    }
  }

  lemma {:induction false} ScanOneItem(st: Scan, items: seq<Item>)
    requires |items| == 1
    ensures ScanItems(st, items) == ScanItem(st, items[0])
  {
  }

  // ---- Where the split ends ----

  lemma {:induction false} CharsKeepDepth(st: Scan, str: string)
    requires st.Scanning? ==> st.depth >= 1
    ensures ScanChars(st, str).Scanning? ==> ScanChars(st, str).depth >= 1
    decreases |str|
  {
    if str != [] {
      CharsKeepDepth(ScanChar(st, str[0]), str[1..]);
    }
  }

  lemma {:induction false} ScalarsKeepDepth(st: Scan, ds: seq<Data>)
    requires st.Scanning? ==> st.depth >= 1
    ensures ScanScalars(st, ds).Scanning? ==> ScanScalars(st, ds).depth >= 1
    decreases |ds|
  {
    if ds != [] {
      if ds[0].StrV? {
        CharsKeepDepth(Toggled(st), ds[0].s);
      }
      ScalarsKeepDepth(ScanScalar(st, ds[0]), ds[1..]);
    }
  }

  lemma {:induction false} ItemsKeepDepth(st: Scan, items: seq<Item>)
    requires st.Scanning? ==> st.depth >= 1
    ensures ScanItems(st, items).Scanning? ==> ScanItems(st, items).depth >= 1
    decreases |items|
  {
    hide ScanChars;
    if items != [] {
      match items[0] {
        case Ignored =>
        case Value(d) =>
          ScalarsKeepDepth(st, Elements(d));
          if d.AppendV? && d.elem.StrV? {
            CharsKeepDepth(Toggled(st), d.elem.s);
          } else if d.StrV? {
            CharsKeepDepth(Toggled(st), d.s);
          }
      }
      ItemsKeepDepth(ScanItem(st, items[0]), items[1..]);
    }
  }

  /**
   * The scan for the closing parenthesis of a printed list finds the one behind the list
   * exactly when the values say so; otherwise it finds none, or one inside the list.
   */
  lemma {:induction false} CloseParenIff(s: string, open: nat, items: seq<Item>, marks: bool)
    requires open + 1 <= |s| && ItemsOk(items, marks) && HasAt(s, open + 1, ListText(items, marks) + ")")
    requires |s| == open + 1 + |ListText(items, marks)| + 1
    ensures var close := CloseParen(s, open, open + 1, 1, false);
            && (close == Some(|s| - 1) <==> SplitsRight(items))
            && (close.Some? ==> close.value <= |s| - 1)
  {
    hide HasAt, ListText, ItemOk, ScanItems;
    var inside := ListText(items, marks);
    var end := open + 1 + |inside|;
    HasAtSplit(s, open + 1, inside, ")");
    HasAtFirst(s, end, ")");
    CarryList(s, open, open + 1, items, marks, OPENED);
    ItemsKeepDepth(OPENED, items);
    var st := ScanItems(OPENED, items);
    if st.Scanning? {
      assert CloseParen(s, open, open + 1, 1, false) == CloseParen(s, open, end, st.depth, st.quoted);
      assert st.quoted || st.depth > 1 ==> CloseParen(s, open, end, st.depth, st.quoted) == None;
    }
  }

  // ---- Lists that split right ----

  predicate NoFinalBackslash(d: Data) {
    d.StrV? ==> !EndsInBackslash(d.s)
  }

  predicate ItemSplits(item: Item) {
    match item
    case Ignored => true
    case Value(ArrayV(ds)) => forall i :: 0 <= i < |ds| ==> NoFinalBackslash(ds[i])
    case Value(AppendV(d)) => NoFinalBackslash(d)
    case Value(d) => NoFinalBackslash(d)
  }

  lemma {:induction false} QuotedCharsStay(st: Scan, str: string)
    requires st.Scanning? && st.quoted
    ensures ScanChars(st, str) == st
    decreases |str|
  {
    if str != [] {
      QuotedCharsStay(st, str[1..]);
    }
  }

  lemma {:induction false} ScalarStays(d: Data)
    requires NoFinalBackslash(d)
    ensures ScanScalar(OPENED, d) == OPENED
  {
    if d.StrV? {
      QuotedCharsStay(Toggled(OPENED), d.s);
    }
  }

  lemma {:induction false} ScalarsStay(ds: seq<Data>)
    requires forall i :: 0 <= i < |ds| ==> NoFinalBackslash(ds[i])
    ensures ScanScalars(OPENED, ds) == OPENED
    decreases |ds|
  {
    hide NoFinalBackslash, ScanScalar;
    if ds != [] {
      ScalarStays(ds[0]);
      ScalarsStay(ds[1..]);
    }
  }

  /** Strings with no final backslash split right, whatever else they contain. */
  lemma {:induction false} NoBackslashSplits(items: seq<Item>)
    requires forall i :: 0 <= i < |items| ==> ItemSplits(items[i])
    ensures SplitsRight(items)
    decreases |items|
  {
    hide NoFinalBackslash, ScanScalar, ScanScalars;
    if items != [] {
      match items[0] {
        case Ignored =>
        case Value(ArrayV(ds)) => ScalarsStay(ds);
        case Value(AppendV(d)) => ScalarStays(d);
        case Value(d) => ScalarStays(d);
      }
      NoBackslashSplits(items[1..]);
    }
  }
}
