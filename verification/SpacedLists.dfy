/** Value lists as people type them: blanks around values, and numbers with a point or exponent. */
module SpacedLists {
  import opened Values
  import opened Spans
  import opened Text
  import opened Printer
  import opened Parser
  import opened ValueRoundTrip
  import opened ItemRoundTrip

  // ---- Blanks around values ----

  predicate Blanks(s: string) {
    forall i :: 0 <= i < |s| ==> IsBlank(s[i])
  }

  ghost predicate AllBlanks(pads: seq<string>) {
    forall i :: 0 <= i < |pads| ==> Blanks(pads[i])
  }

  /** The printed values with any blanks before and after each, commas between. */
  function Spaced(items: seq<Item>, marks: bool, before: seq<string>, after: seq<string>): string
    requires items != [] && |before| == |after| == |items|
    decreases |items|
  {
    before[0] + (ItemText(items[0], marks) + (after[0]
    + if |items| == 1 then [] else "," + Spaced(items[1..], marks, before[1..], after[1..])))
  }

  lemma {:induction false} SkipRun(s: string, p: nat, pad: string)
    requires HasAt(s, p, pad) && Blanks(pad) && !IsBlank(At(s, p + |pad|))
    ensures p + |pad| <= |s| && SkipBlanks(s, p) == p + |pad|
    decreases |pad|
  {
    if pad == [] {
      SkipNone(s, p);
    } else {
      HasAtFirst(s, p, pad);
      SkipRun(s, p + 1, pad[1..]);
    }
  }

  lemma {:induction false} PadFollows(s: string, q: nat, pad: string, rest: string)
    requires HasAt(s, q, pad + rest) && Blanks(pad) && (rest == [] ==> q + |pad| == |s|) && (rest != [] ==> rest[0] == ',')
    ensures At(s, q) in {',', '\0', ' ', '\t'}
  {
    hide HasAt;
    HasAtSplit(s, q, pad, rest);
    if pad != [] {
      HasAtFirst(s, q, pad);
    } else if rest != [] {
      HasAtFirst(s, q, rest);
    }
  }

  /** The first value of a spaced list parses, and what follows it is the rest of the list. */
  lemma {:induction false} FirstSpaced(
      s: string, p: nat, items: seq<Item>, marks: bool, before: seq<string>, after: seq<string>, strtod: Strtod)
    requires ItemsOk(items, marks) && |before| == |after| == |items| && AllBlanks(before) && AllBlanks(after)
    requires HasAt(s, p, Spaced(items, marks, before, after)) && p + |Spaced(items, marks, before, after)| == |s|
    ensures var at := p + |before[0]|;
            var end := at + |ItemText(items[0], marks)|;
            var q := end + |after[0]|;
            && p <= |s| && SkipBlanks(s, p) == at && ParseItem(s, at, marks, strtod) == OkItem(items[0], end)
            && end <= |s| && SkipBlanks(s, end) == q
            && (|items| == 1 ==> q == |s|)
            && (|items| > 1 ==>
                  && At(s, q) == ',' && HasAt(s, q + 1, Spaced(items[1..], marks, before[1..], after[1..]))
                  && q + 1 + |Spaced(items[1..], marks, before[1..], after[1..])| == |s|)
  {
    hide HasAt, ParseItem, ItemText, ItemOk, SkipBlanks;
    var e := ItemText(items[0], marks);
    var rest := if |items| == 1 then [] else "," + Spaced(items[1..], marks, before[1..], after[1..]);
    var at := p + |before[0]|;
    HasAtSplit(s, p, before[0], e + (after[0] + rest));
    HasAtSplit(s, at, e, after[0] + rest);
    HasAtSplit(s, at + |e|, after[0], rest);
    var q := at + |e| + |after[0]|;
    PadFollows(s, at + |e|, after[0], rest);
    ItemTextAt(s, at, items[0], marks, strtod);
    SkipRun(s, p, before[0]);
    if |items| > 1 {
      HasAtFirst(s, q, rest);
      HasAtSplit(s, q, ",", Spaced(items[1..], marks, before[1..], after[1..]));
    }
    SkipRun(s, at + |e|, after[0]);
  }

  lemma {:induction false} SpacedItemsAt(
      s: string, p: nat, items: seq<Item>, marks: bool, before: seq<string>, after: seq<string>, left: nat, acc: seq<Item>, strtod: Strtod)
    requires ItemsOk(items, marks) && |before| == |after| == |items| && AllBlanks(before) && AllBlanks(after) && left > 0
    requires HasAt(s, p, Spaced(items, marks, before, after)) && p + |Spaced(items, marks, before, after)| == |s|
    ensures ParseItems(s, p, left, marks, strtod, acc) == Success(acc + Fitted(items, left))
    decreases |items|
  {
    hide HasAt, ParseItem, ItemText, Fitted, ItemOk, SkipBlanks, Spaced;
    FirstSpaced(s, p, items, marks, before, after, strtod);
    var q := p + |before[0]| + |ItemText(items[0], marks)| + |after[0]|;
    FittedStep(acc, items, left);
    if |items| == 1 {
      FittedNone(left - 1);
      assert items[1..] == [];
      assert At(s, q) != ',';
    } else if left == 1 {
      FittedNone0(items[1..]);
      assert acc + [items[0]] + [] == acc + [items[0]];
    } else {
      SpacedItemsAt(s, q + 1, items[1..], marks, before[1..], after[1..], left - 1, acc + [items[0]], strtod);
    }
  }

  lemma {:induction false} CountBlanks(st: Counter, pad: string)
    requires Blanks(pad) && (st.content || !st.quoted)
    ensures CountAll(st, pad) == st
    decreases |pad|
  {
    if pad != [] {
      CountBlanks(st, pad[1..]);
    }
  }

  lemma {:induction false} CountSpaced(st: Counter, items: seq<Item>, marks: bool, before: seq<string>, after: seq<string>)
    requires ItemsOk(items, marks) && |before| == |after| == |items| && AllBlanks(before) && AllBlanks(after)
    requires st.content || !st.quoted
    ensures CountAll(st, Spaced(items, marks, before, after)) == CountItems(st, items)
    decreases |items|
  {
    hide ItemText, ItemOk, CountAll, CountItem, Blanks;
    var e := ItemText(items[0], marks);
    var tail := if |items| == 1 then [] else "," + Spaced(items[1..], marks, before[1..], after[1..]);
    var st1 := CountItem(st, items[0]);
    CountConcat(st, before[0], e + (after[0] + tail));
    CountBlanks(st, before[0]);
    CountConcat(st, e, after[0] + tail);
    CountItemText(st, items[0], marks);
    CountConcat(st1, after[0], tail);
    CountBlanks(st1, after[0]);
    if |items| == 1 {
      CountEmpty(st1);
    } else {
      var rest := Spaced(items[1..], marks, before[1..], after[1..]);
      CountConcat(st1, ",", rest);
      CountOne(st1, ',');
      CountComma(st1);
      CountSpaced(Count1(st1, ','), items[1..], marks, before[1..], after[1..]);
    }
  }

  lemma {:induction false} CountEmpty(st: Counter)
    ensures CountAll(st, []) == st
  {
  }

  lemma {:induction false} CountComma(st: Counter)
    requires st.content
    ensures Count1(st, ',').content
  {
  }

  /** Blanks before and after values do not change what a list parses to. */
  lemma {:induction false} BlanksChangeNothing(
      items: seq<Item>, marks: bool, before: seq<string>, after: seq<string>, strtod: Strtod)
    requires ItemsOk(items, marks) && |before| == |after| == |items| && AllBlanks(before) && AllBlanks(after)
    ensures var s := Spaced(items, marks, before, after);
            && TokenizeItems(s, marks, strtod) == TokenizeItems(ListText(items, marks), marks, strtod)
            && (TokenizeItems(s, marks, strtod) == Success(items) <==> CountsRight(items))
  {
    hide HasAt, ParseItem, ItemText, ListText, Fitted, CountAll, ItemOk, ParseItems, Spaced, CountItems, SkipBlanks;
    var s, plain := Spaced(items, marks, before, after), ListText(items, marks);
    CountSpaced(START, items, marks, before, after);
    CountListText(START, items, marks);
    assert s + [] == s && plain + [] == plain;
    HasAtStart(s, []);
    HasAtStart(plain, []);
    var count := CountValues(s);
    assert count == CountValues(plain) > 0;
    SpacedItemsAt(s, 0, items, marks, before, after, count, [], strtod);
    FirstItemAt(plain, 0, items, marks, strtod);
    SkipNone(plain, 0);
    ItemsAt(plain, 0, 0, items, count, marks, [], strtod);
    FittedExact(items, count);
    assert [] + Fitted(items, count) == Fitted(items, count);
  }

  // ---- Doubles ----

  /** From p on stand an optional sign, digits up to q, and there a point or an exponent. */
  predicate LooksLikeDouble(s: string, p: nat, q: nat) {
    && p < |s| && q < |s| && s[q] in {'.', 'e', 'E'}
    && (if s[p] == '-' || s[p] == '+' then p + 1 <= q && (forall i :: p + 1 <= i < q ==> IsDigit(s[i]))
        else p < q && forall i :: p <= i < q ==> IsDigit(s[i]))
  }

  lemma {:induction false} PointSeen(s: string, p: nat, q: nat)
    requires p <= q < |s| && s[q] in {'.', 'e', 'E'} && forall i :: p <= i < q ==> IsDigit(s[i])
    ensures LooksDouble(s, p)
    decreases q - p
  {
    if p < q {
      PointSeen(s, p + 1, q);
    }
  }

  /** A number with a point or an exponent is the double the C library reads there, or invalid when it reads nothing. */
  lemma {:induction false} DoubleLiteral(s: string, p: nat, q: nat, strtod: Strtod)
    requires LooksLikeDouble(s, p, q)
    ensures var (bits, end) := strtod(s, p);
            ParseValue(s, p, strtod) == if p < end <= |s| then Ok(DoubleV(bits), end) else Err(-4)
  {
    hide WordAt, ParseString, ParseElements, LooksDouble;
    var digits := if s[p] == '-' || s[p] == '+' then p + 1 else p;
    PointSeen(s, digits, q);
    NoWordAt(s, p, s[p]);
    SkipNone(s, p);
  }
}
