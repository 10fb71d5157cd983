/** What the value parser refuses, and with which code. */
module ParserRefusals {
  import opened Values
  import opened Spans
  import opened Text
  import opened Printer
  import opened Parser
  import opened ValueRoundTrip
  import opened ItemRoundTrip
  import opened SpacedLists

  // ---- Strings ----

  /** A string of more than 4096 characters is too long. */
  lemma {:induction false} LongString(s: string, p: nat, str: string, strtod: Strtod)
    requires HasAt(s, p, FormatScalar(StrV(str))) && |str| > 4096
    ensures ParseValue(s, p, strtod) == Err(-8)
  {
    hide HasAt, WordAt, ParseString, ParseNumber, ParseElements, EscapeString;
    QuotedAt(s, p, str);
    HasAtQuote(s, p, str);
    SkipNone(s, p);
  }

  lemma {:induction false} HasAtQuote(s: string, p: nat, str: string)
    requires HasAt(s, p, FormatScalar(StrV(str)))
    ensures p < |s| && s[p] == '\"'
  {
    hide EscapeString, HasAt;
    HasAtSplit(s, p, "\"", EscapeString(str) + "\"");
    HasAtFirst(s, p, "\"");
  }

  lemma {:induction false} OpenBody(s: string, p: nat, str: string)
    requires HasAt(s, p, EscapeEach(str)) && p + |EscapeEach(str)| == |s|
    ensures StringBody(s, p) == None
    decreases |str|
  {
    hide HasAt, EscapeChar;
    if str != [] {
      var e, rest := EscapeChar(str[0]), EscapeEach(str[1..]);
      HasAtSplit(s, p, e, rest);
      OpenBody(s, p + |e|, str[1..]);
      OpenChar(s, p, str[0]);
    }
  }

  lemma {:induction false} OpenChar(s: string, p: nat, c: char)
    requires HasAt(s, p, EscapeChar(c)) && p + |EscapeChar(c)| <= |s| && StringBody(s, p + |EscapeChar(c)|) == None
    ensures StringBody(s, p) == None
  {
    if |EscapeChar(c)| == 2 {
      HasAtTwo(s, p, EscapeChar(c)[0], EscapeChar(c)[1]);
    } else {
      HasAtFirst(s, p, [c]);
    }
  }

  /** A string whose closing quote is missing is unterminated. */
  lemma {:induction false} OpenString(s: string, p: nat, str: string, strtod: Strtod)
    requires HasAt(s, p, "\"" + EscapeEach(str)) && p + 1 + |EscapeEach(str)| == |s|
    ensures ParseValue(s, p, strtod) == Err(-3)
  {
    hide HasAt, WordAt, ParseNumber, ParseElements, EscapeEach, StringBody;
    HasAtSplit(s, p, "\"", EscapeEach(str));
    HasAtFirst(s, p, "\"");
    OpenBody(s, p + 1, str);
    SkipNone(s, p);
  }

  // ---- Arrays ----

  lemma {:induction false} BadElements(s: string, p0: nat, p: nat, ds: seq<Data>, acc: seq<Data>, strtod: Strtod)
    requires ds != [] && forall i :: 0 <= i < |ds| ==> ScalarOk(ds[i])
    requires p0 <= |s| && SkipBlanks(s, p0) == p && HasAt(s, p, Join(FormatScalars(ds)) + "]")
    requires |acc| + |ds| > MAX_ARRAY_LENGTH || exists j :: 0 <= j < |ds| && Tag(ds[j]) != Tag((acc + ds)[0])
    ensures ParseElements(s, p0, strtod, acc) == Err(-6)
    decreases |ds|
  {
    hide HasAt, ParseValue, FormatScalar, FormatScalars, Join, ScalarOk, Tag, SkipBlanks;
    FirstElementAt(s, p, ds, strtod);
    LeadingBlanks(s, p0, strtod);
    var q := p + |FormatScalar(ds[0])|;
    if |acc| < MAX_ARRAY_LENGTH && (acc == [] || Tag(acc[0]) == Tag(ds[0])) {
      OnlyLater(acc, ds);
      HasAtTwo(s, q, ',', ' ');
      SkipNone(s, q);
      FirstElementAt(s, q + 2, ds[1..], strtod);
      SkipOne(s, q + 1);
      assert acc + ds == acc + [ds[0]] + ds[1..];
      BadElements(s, q + 1, q + 2, ds[1..], acc + [ds[0]], strtod);
    }
  }

  lemma {:induction false} OnlyLater(acc: seq<Data>, ds: seq<Data>)
    requires ds != [] && |acc| < MAX_ARRAY_LENGTH && (acc == [] || Tag(acc[0]) == Tag(ds[0]))
    requires |acc| + |ds| > MAX_ARRAY_LENGTH || exists j :: 0 <= j < |ds| && Tag(ds[j]) != Tag((acc + ds)[0])
    ensures |ds| > 1
    ensures |acc + [ds[0]]| + |ds[1..]| > MAX_ARRAY_LENGTH
         || exists j :: 0 <= j < |ds[1..]| && Tag(ds[1..][j]) != Tag((acc + [ds[0]] + ds[1..])[0])
  {
    hide Tag;
    if |acc| + |ds| <= MAX_ARRAY_LENGTH {
      var j :| 0 <= j < |ds| && Tag(ds[j]) != Tag((acc + ds)[0]);
      assert j > 0;
      assert (acc + [ds[0]] + ds[1..])[0] == (acc + ds)[0];
      assert ds[1..][j - 1] == ds[j];
    }
  }

  /** A printed array of scalars parses back exactly when they are of one type and at most 1024; else it is invalid. */
  lemma {:induction false} ArrayParsesIff(s: string, p: nat, ds: seq<Data>, strtod: Strtod)
    requires HasAt(s, p, FormatArray(ds)) && forall i :: 0 <= i < |ds| ==> ScalarOk(ds[i])
    ensures ParseValue(s, p, strtod)
         == if Homogeneous(ds) && |ds| <= 1024 then Ok(ArrayV(ds), p + |FormatArray(ds)|) else Err(-6)
  {
    hide HasAt, FormatScalar, FormatScalars, ScalarOk, Tag, WordAt, ParseString, ParseNumber, ParseElements;
    if Homogeneous(ds) && |ds| <= 1024 {
      ArrayTextAt(s, p, ds, strtod);
    } else {
      var body := Join(FormatScalars(ds));
      HasAtSplit(s, p, "[", body + "]");
      HasAtFirst(s, p, "[");
      NoWordAt(s, p, '[');
      SkipNone(s, p);
      FirstElementAt(s, p + 1, ds, strtod);
      SkipNone(s, p + 1);
      assert [] + ds == ds;
      if |ds| <= 1024 {
        var j :| 0 <= j < |ds| && !(ScalarOk(ds[j]) && Tag(ds[j]) == Tag(ds[0]));
        assert Tag(ds[j]) != Tag(([] + ds)[0]);
      }
      BadElements(s, p + 1, p + 1, ds, [], strtod);
    }
  }

  // ---- Lists ----

  /** A list of blanks holds no values. */
  lemma {:induction false} EmptyList(pad: string, marks: bool, strtod: Strtod)
    requires Blanks(pad)
    ensures TokenizeItems(pad, marks, strtod) == Failure(-2)
  {
    CountBlanks(START, pad);
  }

  /** A value, blanks, and then something other than a comma: the list is malformed. */
  lemma {:induction false} MissingComma(item: Item, marks: bool, pad: string, rest: string, strtod: Strtod)
    requires ItemOk(item, marks) && Blanks(pad) && pad != [] && rest != [] && !IsBlank(rest[0]) && rest[0] != ','
    requires CountValues(ItemText(item, marks) + (pad + rest)) > 0
    ensures TokenizeItems(ItemText(item, marks) + (pad + rest), marks, strtod) == Failure(-7)
  {
    hide HasAt, ParseItem, ItemText, ItemOk, SkipBlanks, CountValues;
    var e := ItemText(item, marks);
    var s := e + (pad + rest);
    assert s + [] == s;
    HasAtStart(s, []);
    HasAtSplit(s, 0, e, pad + rest);
    HasAtSplit(s, |e|, pad, rest);
    HasAtFirst(s, |e|, pad);
    HasAtFirst(s, |e| + |pad|, rest);
    ItemTextAt(s, 0, item, marks, strtod);
    SkipNone(s, 0);
    SkipRun(s, |e|, pad);
  }
}
