/** Whole ADD and UP commands: what the client builds, the server parses back. */
module CommandRoundTrip {
  import opened Values
  import opened Spans
  import opened Text
  import opened Printer
  import opened Parser
  import opened ValueRoundTrip
  import opened ItemRoundTrip
  import opened ParenSplit
  import opened CutLists

  // ---- The text before the parenthesis ----

  predicate NameWordOk(db: string) {
    IsIdentifier(db) && |db| <= MAX_NAME
  }

  /** A key word: no space, no parenthesis, no NUL. */
  predicate KeyWordOk(key: string) {
    key != [] && forall i :: 0 <= i < |key| ==> !IsSpace(key[i]) && key[i] != '(' && key[i] != '\0'
  }

  function Head(db: string, key: string): string {
    db + (" " + (key + " "))
  }

  lemma {:induction false} WordsOf(db: string, key: string)
    requires NameWordOk(db) && KeyWordOk(key)
    ensures TokenizeArgs(Head(db, key)) == Success((db, key))
  {
    var s := Head(db, key);
    var p2 := |db| + 1;
    assert s[|db|] == ' ' && s[p2..p2 + |key|] == key && s[..|db|] == db && s[p2 + |key|] == ' ';
    forall i | 0 <= i < |db|
      ensures !IsSpace(s[i])
    {
      assert s[i] == db[i];
    }
    forall i | p2 <= i < p2 + |key|
      ensures !IsSpace(s[i])
    {
      assert s[i] == key[i - p2];
    }
    SkipNone(s, 0);
    WordEnds(s, 0, |db|);
    SkipOne(s, |db|);
    WordEnds(s, p2, p2 + |key|);
  }

  lemma {:induction false} WordEnds(s: string, p: nat, q: nat)
    requires p <= q < |s| && IsSpace(s[q]) && forall i :: p <= i < q ==> !IsSpace(s[i])
    ensures TokenEnd(s, p) == q
    decreases q - p
  {
    if p < q {
      WordEnds(s, p + 1, q);
    }
  }

  /** The arguments of a printed ADD or UP. */
  function Arguments(db: string, key: string, inside: string): string {
    " " + (Head(db, key) + ("(" + (inside + ")")))
  }

  lemma {:induction false} OpenParenAt(db: string, key: string, inside: string)
    requires NameWordOk(db) && KeyWordOk(key)
    ensures var s, open := Arguments(db, key, inside), 1 + |Head(db, key)|;
            && SkipBlanks(s, 0) == 1 && FindChar(s, 1, '(') == Some(open)
            && s[1..open] == Head(db, key) && HasAt(s, open + 1, inside + ")") && |s| == open + 1 + |inside| + 1
  {
    var s, head := Arguments(db, key, inside), Head(db, key);
    var open := 1 + |head|;
    assert s[1..open] == head && s[open] == '(' && s[open + 1..] == inside + ")";
    HasAtSlice(s, open + 1, inside + ")");
    forall i | 1 <= i < open
      ensures s[i] != '('
    {
      assert s[i] == head[i - 1];
    }
    assert s[1] == db[0];
    SkipOne(s, 0);
    FirstChar(s, 1, open, '(');
  }

  lemma {:induction false} FirstChar(s: string, p: nat, q: nat, c: char)
    requires p <= q < |s| && s[q] == c && forall i :: p <= i < q ==> s[i] != c
    ensures FindChar(s, p, c) == Some(q)
    decreases q - p
  {
    if p < q {
      FirstChar(s, p + 1, q, c);
    }
  }

  /**
   * The split of a printed command finds its value list exactly when the values split right.
   * Otherwise it fails, or cuts the list at one of its own parentheses.
   */
  lemma {:induction false} SplitIff(db: string, key: string, items: seq<Item>, marks: bool)
    requires NameWordOk(db) && KeyWordOk(key) && ItemsOk(items, marks)
    ensures var inside := ListText(items, marks);
            var r := SplitAtParen(Arguments(db, key, inside));
            && (r == Success((Head(db, key), inside)) <==> SplitsRight(items))
            && (r.Success? && !SplitsRight(items) ==>
                  && r.value.0 == Head(db, key)
                  && exists k :: 0 <= k < |inside| && inside[k] == ')' && r.value.1 == inside[..k])
  {
    hide Arguments, Head, ListText, ItemOk, SplitsRight, SkipBlanks, FindChar, HasAt, NameWordOk, KeyWordOk, CloseParen;
    var inside := ListText(items, marks);
    var s, open := Arguments(db, key, inside), 1 + |Head(db, key)|;
    OpenParenAt(db, key, inside);
    CloseParenIff(s, open, items, marks);
    HasAtSlice(s, open + 1, inside + ")");
    var close := CloseParen(s, open, open + 1, 1, false);
    assert s[open + 1..] == inside + ")";
    if close.Some? {
      var k := close.value - (open + 1);
      assert s[open + 1..close.value] == (inside + ")")[..k];
      if k < |inside| {
        assert (inside + ")")[..k] == inside[..k] && inside[k] == s[close.value];
      } else {
        assert (inside + ")")[..k] == inside;
      }
    }
  }

  /** A string ending in a backslash hides its closing quote from the split; a second one shows it again. */
  lemma {:induction false} FinalBackslashes()
    ensures !SplitsRight([Value(StrV("\\"))])
    ensures SplitsRight([Value(StrV("\\")), Value(StrV("\\"))])
  {
    var slash := Value(StrV("\\"));
    var unquoted, quoted := OPENED, Scanning(1, true);
    SlashScan(unquoted);
    SlashScan(quoted);
    assert ScanItems(quoted, [slash]) == ScanItems(unquoted, []) == OPENED;
    assert [slash, slash][1..] == [slash];
  }

  lemma {:induction false} SlashScan(st: Scan)
    ensures ScanItem(st, Value(StrV("\\"))) == Toggled(st)
  {
    assert ScanChars(Toggled(st), "\\") == ScanChars(Toggled(st), "\\"[1..]);
  }

  // ---- Whole commands ----

  lemma {:induction false} WholeIntText(i: int)
    ensures WholeInt(IntText(i)) == Some(i) && IntText(i) != "*" && KeyWordOk(IntText(i))
  {
    HasAtStart(IntText(i), []);
    assert IntText(i) + [] == IntText(i);
    IntAt(IntText(i), 0, i);
  }

  /** What a printed ADD or UP should parse to. */
  function Expected(db: string, key: string, items: seq<Item>, up: bool): Command
    requires WholeInt(key).Some? || (key == "*" && !up)
  {
    if up then UpCommand(db, WholeInt(key).value, items)
    else AddCommand(db, if key == "*" then Auto else Given(WholeInt(key).value), items)
  }

  /** The command is an ADD or UP of this many values. */
  predicate Holds(c: Command, n: nat) {
    (c.AddCommand? || c.UpCommand?) && |c.items| == n
  }

  /** What the value lists of a printed command can parse to, whatever text the split hands on. */
  lemma {:induction false} SplitOutcome(db: string, key: string, items: seq<Item>, up: bool, strtod: Strtod)
    requires NameWordOk(db) && KeyWordOk(key) && ItemsOk(items, up)
    ensures var r := SplitAtParen(Arguments(db, key, ListText(items, up)));
            r.Success? ==>
              && r.value.0 == Head(db, key)
              && var parsed := TokenizeItems(r.value.1, up, strtod);
                 && (parsed.Success? && |parsed.value| == |items| ==> parsed.value == items)
                 && (parsed == Success(items) <==> SplitsRight(items) && CountsRight(items))
  {
    hide Arguments, Head, ListText, ItemOk, SplitAtParen, TokenizeItems, CountValues, IsIdentifier, SplitsRight, CountsRight;
    var inside := ListText(items, up);
    var r := SplitAtParen(Arguments(db, key, inside));
    SplitIff(db, key, items, up);
    ListParsesIff(items, up, strtod);
    CountsRightIff(items, up);
    if r.Success? && !SplitsRight(items) {
      var k :| 0 <= k < |inside| && inside[k] == ')' && r.value.1 == inside[..k];
      CutListFails(items, up, k, strtod);
    }
  }

  /**
   * For every list of printable values: the printed ADD or UP parses back exactly when its
   * values split right and count right. When it does not, it parses to an error or to a
   * command with another number of values.
   */
  lemma {:induction false} WriteParsesIff(db: string, key: string, items: seq<Item>, up: bool, strtod: Strtod)
    requires NameWordOk(db) && KeyWordOk(key) && ItemsOk(items, up)
    requires WholeInt(key).Some? || (key == "*" && !up)
    ensures var c := ParseWrite(Arguments(db, key, ListText(items, up)), up, strtod);
            && (c == Expected(db, key, items, up) <==> SplitsRight(items) && CountsRight(items))
            && (Holds(c, |items|) ==> c == Expected(db, key, items, up))
  {
    hide Arguments, Head, ListText, ItemOk, SplitAtParen, TokenizeArgs, TokenizeItems, WholeInt, IsIdentifier, SplitsRight, CountsRight;
    WordsOf(db, key);
    SplitOutcome(db, key, items, up, strtod);
    SplitIff(db, key, items, up);
  }

  /** Values that survive every pass: no quotes and no final backslash in their strings. */
  predicate SafeItems(items: seq<Item>, marks: bool) {
    ItemsOk(items, marks) && forall i :: 0 <= i < |items| ==> ItemQuoteFree(items[i]) && ItemSplits(items[i])
  }

  lemma {:induction false} SafeItemsPass(items: seq<Item>, marks: bool)
    requires SafeItems(items, marks)
    ensures SplitsRight(items) && CountsRight(items)
  {
    hide ItemOk, ItemQuoteFree, ItemSplits, SplitsRight, CountItems;
    NoBackslashSplits(items);
    CountFreeItems(START, items);
  }

  // ---- NUL-freedom and the command word ----

  lemma {:induction false} ScalarNulFree(d: Data)
    requires ScalarOk(d)
    ensures '\0' !in FormatScalar(d)
  {
    if d.StrV? {
      EscapeIsCharwise(d.s);
      EscapeKeepsNulFree(d.s);
    }
  }

  lemma {:induction false} JoinNulFree(parts: seq<string>)
    requires forall i :: 0 <= i < |parts| ==> '\0' !in parts[i]
    ensures '\0' !in Join(parts)
    decreases |parts|
  {
    if |parts| > 1 {
      JoinNulFree(parts[1..]);
    }
  }

  lemma {:induction false} ItemNulFree(item: Item, marks: bool)
    requires ItemOk(item, marks)
    ensures '\0' !in ItemText(item, marks)
  {
    hide FormatScalar, ScalarOk;
    match item
    case Ignored =>
    case Value(ArrayV(ds)) =>
      forall i | 0 <= i < |ds|
        ensures '\0' !in FormatScalars(ds)[i]
      {
        ScalarNulFree(ds[i]);
      }
      JoinNulFree(FormatScalars(ds));
    case Value(AppendV(d)) => ScalarNulFree(d);
    case Value(d) => ScalarNulFree(d);
  }

  lemma {:induction false} ListNulFree(items: seq<Item>, marks: bool)
    requires ItemsOk(items, marks)
    ensures '\0' !in ListText(items, marks)
  {
    hide ItemText, ItemOk;
    forall i | 0 <= i < |items|
      ensures '\0' !in Texts(items, marks)[i]
    {
      ItemNulFree(items[i], marks);
    }
    JoinNulFree(Texts(items, marks));
  }

  /** The same letters, upper or lower case. */
  predicate SameWord(word: string, name: string) {
    |word| == |name| && forall i :: 0 <= i < |word| ==> ToLower(word[i]) == ToLower(name[i])
  }

  /** ADD and UP, in any mixture of upper and lower case, hand their arguments on. */
  lemma {:induction false} CommandWord(word: string, op: nat, args: string, strtod: Strtod)
    requires (SameWord(word, "ADD") && op == OP_ADD) || (SameWord(word, "UP") && op == OP_UP)
    requires args != [] && args[0] == ' ' && '\0' !in args && '\0' !in word
    ensures ParseCommand(word + args, strtod) == ParseWrite(args, op == OP_UP, strtod)
  {
    hide ParseWrite;
    var s, name := word + args, COMMANDS[op];
    CStringOf(s);
    assert s[0] == word[0] && s[|word|] == ' ' && s[|word|..] == args;
    assert ToLower(word[0]) == ToLower(name[0]);
    SkipNone(s, 0);
    forall i | 0 <= i < |name|
      ensures ToLower(s[0 + i]) == ToLower(name[i])
    {
      assert s[0 + i] == word[i];
    }
    assert CommandAt(s, 0, op);
    assert !CommandAt(s, 0, 0) by {
      assert COMMANDS[0][0] == 'C';
      assert WordAt(s, 0, COMMANDS[0]) ==> ToLower(s[0 + 0]) == ToLower(COMMANDS[0][0]);
    }
    assert op == OP_UP ==> !CommandAt(s, 0, 1) by {
      assert COMMANDS[1][0] == 'A';
      assert WordAt(s, 0, COMMANDS[1]) ==> ToLower(s[0 + 0]) == ToLower(COMMANDS[1][0]);
    }
    assert DetermineOperation(s, 0, op) == Some(op);
  }

  function AsItems(values: seq<Data>): (items: seq<Item>)
    ensures |items| == |values|
  {
    seq(|values|, i requires 0 <= i < |values| => Value(values[i]))
  }

  lemma {:induction false} ArgumentsNulFree(db: string, key: string, inside: string)
    requires NameWordOk(db) && KeyWordOk(key) && '\0' !in inside
    ensures '\0' !in Arguments(db, key, inside) && Arguments(db, key, inside)[0] == ' '
  {
  }

  /** Integers the server's parser can hold. */
  predicate Holdable(i: int) {
    -0x7FFF_FFFF <= i <= 0x7FFF_FFFF
  }

  /**
   * The client's ADD, for every table name, key and list of printable values: the server
   * parses it into exactly these if and only if the values split right and count right. An
   * ADD it parses into as many values as were sent holds exactly the values sent.
   */
  lemma {:induction false} AddParsesIff(db: string, key: AddKey, values: seq<Data>, strtod: Strtod)
    requires NameWordOk(db) && ItemsOk(AsItems(values), false) && (key.Given? ==> Holdable(key.key))
    ensures var c, items := ParseCommand(BuildAdd(db, key, values), strtod), AsItems(values);
            && (c == AddCommand(db, key, items) <==> SplitsRight(items) && CountsRight(items))
            && (Holds(c, |values|) ==> c == AddCommand(db, key, items))
  {
    hide ListText, ItemOk, ParseCommand, ParseWrite, KeyWordOk, IsIdentifier, WholeInt, SplitsRight, CountsRight;
    var items := AsItems(values);
    var word := KeyText(key);
    StarIsAKeyWord();
    if key.Given? {
      WholeIntText(key.key);
    }
    ValuesText(values);
    ListNulFree(items, false);
    var args := Arguments(db, word, ListText(items, false));
    ArgumentsNulFree(db, word, ListText(items, false));
    BuildAddText(db, key, values);
    CommandWord("ADD", OP_ADD, args, strtod);
    WriteParsesIff(db, word, items, false, strtod);
  }

  /** ADD round trip: strings without quotes and final backslashes always pass. */
  lemma {:induction false} AddRoundTrip(db: string, key: AddKey, values: seq<Data>, strtod: Strtod)
    requires NameWordOk(db) && SafeItems(AsItems(values), false) && (key.Given? ==> Holdable(key.key))
    ensures ParseCommand(BuildAdd(db, key, values), strtod) == AddCommand(db, key, AsItems(values))
  {
    hide ItemOk, ItemQuoteFree, ItemSplits, ParseCommand, IsIdentifier, SplitsRight, CountsRight;
    SafeItemsPass(AsItems(values), false);
    AddParsesIff(db, key, values, strtod);
  }

  lemma {:induction false} StarIsAKeyWord()
    ensures KeyWordOk("*")
  {
  }

  lemma {:induction false} ValuesText(values: seq<Data>)
    ensures Join(FormatValues(values)) == ListText(AsItems(values), false)
  {
    assert FormatValues(values) == Texts(AsItems(values), false);
  }

  lemma {:induction false} BuildAddText(db: string, key: AddKey, values: seq<Data>)
    ensures BuildAdd(db, key, values) == "ADD" + Arguments(db, KeyText(key), Join(FormatValues(values)))
  {
    hide FormatValues, Join, KeyText;
  }

  lemma {:induction false} ItemsText(items: seq<Item>)
    ensures Join(FormatItems(items)) == ListText(items, true)
  {
    assert FormatItems(items) == Texts(items, true);
  }

  lemma {:induction false} BuildUpText(db: string, key: int, items: seq<Item>)
    ensures BuildUp(db, key, items) == "UP" + Arguments(db, IntText(key), Join(FormatItems(items)))
  {
    hide FormatItems, Join, IntText;
  }

  /** What the client's text says: the string `_` is spelled like the ignore mark. */
  function Spelled(items: seq<Item>): (r: seq<Item>)
    ensures |r| == |items|
  {
    seq(|items|, i requires 0 <= i < |items| => if items[i] == Value(StrV("_")) then Ignored else items[i])
  }

  lemma {:induction false} SpelledUpParses(db: string, key: int, items: seq<Item>, strtod: Strtod)
    requires NameWordOk(db) && ItemsOk(items, true) && Holdable(key)
    ensures var c := ParseCommand(BuildUp(db, key, items), strtod);
            && (c == UpCommand(db, key, items) <==> SplitsRight(items) && CountsRight(items))
            && (Holds(c, |items|) ==> c == UpCommand(db, key, items))
  {
    hide ListText, ItemOk, ParseCommand, ParseWrite, KeyWordOk, IsIdentifier, WholeInt, SplitsRight, CountsRight;
    WholeIntText(key);
    ItemsText(items);
    ListNulFree(items, true);
    var args := Arguments(db, IntText(key), ListText(items, true));
    ArgumentsNulFree(db, IntText(key), ListText(items, true));
    BuildUpText(db, key, items);
    CommandWord("UP", OP_UP, args, strtod);
    WriteParsesIff(db, IntText(key), items, true, strtod);
  }

  /**
   * The client's UP, with ignore marks and appends: the server parses it into exactly the
   * values sent if and only if none of them is the string `_` and they split and count right.
   */
  lemma {:induction false} UpParsesIff(db: string, key: int, items: seq<Item>, strtod: Strtod)
    requires NameWordOk(db) && ItemsOk(Spelled(items), true) && Holdable(key)
    ensures ParseCommand(BuildUp(db, key, items), strtod) == UpCommand(db, key, items)
       <==> Value(StrV("_")) !in items && SplitsRight(items) && CountsRight(items)
  {
    hide ParseCommand, NameWordOk, ItemOk, SplitsRight, CountsRight;
    assert FormatItems(items) == FormatItems(Spelled(items));
    assert BuildUp(db, key, items) == BuildUp(db, key, Spelled(items));
    SpelledUpParses(db, key, Spelled(items), strtod);
    if Value(StrV("_")) in items {
      var i :| 0 <= i < |items| && items[i] == Value(StrV("_"));
      assert Spelled(items)[i] == Ignored;
    } else {
      assert Spelled(items) == items;
    }
  }

  /** UP round trip: strings without quotes and final backslashes, none of them `_`, always pass. */
  lemma {:induction false} UpRoundTrip(db: string, key: int, items: seq<Item>, strtod: Strtod)
    requires NameWordOk(db) && SafeItems(items, true) && Holdable(key)
    ensures ParseCommand(BuildUp(db, key, items), strtod) == UpCommand(db, key, items)
  {
    hide ItemOk, ItemQuoteFree, ItemSplits, ParseCommand, IsIdentifier, SplitsRight, CountsRight;
    SafeItemsPass(items, true);
    SpelledUpParses(db, key, items, strtod);
  }
}
