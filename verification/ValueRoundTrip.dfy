/** What the client prints for a value, the server parses back. */
module ValueRoundTrip {
  import opened Values
  import opened Spans
  import opened Text
  import opened Printer
  import opened Parser

  // ---- Strings ----

  lemma {:induction false} EscapedBodyAt(s: string, p: nat, str: string)
    requires HasAt(s, p, EscapeEach(str) + "\"")
    ensures StringBody(s, p) == Some((str, p + |EscapeEach(str)| + 1))
    decreases |str|
  {
    hide HasAt, EscapeChar;
    HasAtSplit(s, p, EscapeEach(str), "\"");
    if str == [] {
      HasAtFirst(s, p, "\"");
    } else {
      var e, rest := EscapeChar(str[0]), EscapeEach(str[1..]);
      HasAtSplit(s, p, e, rest);
      HasAtSplit(s, p + |e|, rest, "\"");
      EscapedBodyAt(s, p + |e|, str[1..]);
      EscapedCharAt(s, p, str[0], str[1..], p + |e| + |rest| + 1);
      assert str == [str[0]] + str[1..];
    }
  }

  lemma {:induction false} EscapedCharAt(s: string, p: nat, c: char, rest: string, end: nat)
    requires HasAt(s, p, EscapeChar(c)) && p + |EscapeChar(c)| <= |s|
    requires StringBody(s, p + |EscapeChar(c)|) == Some((rest, end))
    ensures StringBody(s, p) == Some(([c] + rest, end))
  {
    if |EscapeChar(c)| == 2 {
      HasAtTwo(s, p, EscapeChar(c)[0], EscapeChar(c)[1]);
    } else {
      HasAtFirst(s, p, [c]);
    }
  }

  lemma {:induction false} QuotedAt(s: string, p: nat, str: string)
    requires HasAt(s, p, FormatScalar(StrV(str)))
    ensures ParseString(s, p) == Some((str, p + |FormatScalar(StrV(str))|))
    ensures At(s, p) == '\"'
  {
    EscapeIsCharwise(str);
    HasAtSplit(s, p, "\"", EscapeString(str) + "\"");
    HasAtChars(s, p, "\"");
    EscapedBodyAt(s, p + 1, str);
  }

  lemma {:induction false} EscapeKeepsNulFree(str: string)
    requires '\0' !in str
    ensures '\0' !in EscapeEach(str)
  {
    if str != [] {
      EscapeKeepsNulFree(str[1..]);
    }
  }

  /** On every NUL-free string, whatever follows it, parsing inverts escaping and stops just past the quote. */
  lemma {:induction false} ParseInvertsEscape(str: string, rest: string)
    requires '\0' !in str
    ensures var quoted := "\"" + (EscapeString(str) + "\"");
            ParseString(CString(quoted + rest), 0) == Some((str, |quoted|))
  {
    var quoted := "\"" + (EscapeString(str) + "\"");
    EscapeIsCharwise(str);
    EscapeKeepsNulFree(str);
    CStringConcat(quoted, rest);
    HasAtStart(quoted, CString(rest));
    QuotedAt(quoted + CString(rest), 0, str);
  }

  // ---- Scalars ----

  /** Scalars the client can print and the server's integers can hold. */
  predicate ScalarOk(d: Data) {
    match d
    case IntV(i) => -0x7FFF_FFFF <= i <= 0x7FFF_FFFF
    case BoolV(_) => true
    case StrV(s) => |s| <= MAX_STRING_VALUE_LENGTH && '\0' !in s
    case _ => false
  }

  /** What follows a printed value. */
  predicate Follows(c: char) {
    c in {',', ']', '\0', ' ', '\t'}
  }

  lemma {:induction false} IntAt(s: string, p: nat, i: int)
    requires HasAt(s, p, IntText(i)) && !IsDigit(At(s, p + |IntText(i)|))
    ensures ParseInt(s, p) == Some((i, p + |IntText(i)|))
    ensures p < |s| && (s[p] == '-' || IsDigit(s[p]))
  {
    HasAtChars(s, p, IntText(i));
    if i < 0 {
      HasAtSplit(s, p, "-", NatText(-i));
      HasAtChars(s, p + 1, NatText(-i));
      DigitsAt(s, p + 1, -i);
    } else {
      DigitsAt(s, p, i);
    }
  }

  /** A run of digits with no point or exponent behind it is not a double. */
  lemma {:induction false} DigitsNotDouble(s: string, p: nat, q: nat)
    requires p <= q <= |s| && (forall i :: p <= i < q ==> IsDigit(s[i]))
    requires !IsDigit(At(s, q)) && At(s, q) !in {'.', 'e', 'E'}
    ensures !LooksDouble(s, p)
    decreases q - p
  {
    if p < q {
      DigitsNotDouble(s, p + 1, q);
    }
  }

  lemma {:induction false} NumberAt(s: string, p: nat, i: int, strtod: Strtod)
    requires HasAt(s, p, IntText(i)) && Follows(At(s, p + |IntText(i)|))
    ensures p < |s| && (s[p] == '-' || IsDigit(s[p]))
    ensures ParseNumber(s, p, strtod) == Ok(IntV(i), p + |IntText(i)|)
  {
    IntAt(s, p, i);
    HasAtChars(s, p, IntText(i));
    var digits := if s[p] == '-' then p + 1 else p;
    var end := p + |IntText(i)|;
    assert s[p + 0] == IntText(i)[0];
    forall j | digits <= j < end
      ensures IsDigit(s[j])
    {
      assert s[p + (j - p)] == IntText(i)[j - p];
      assert i < 0 ==> IntText(i)[j - p] == NatText(-i)[j - p - 1];
    }
    DigitsNotDouble(s, digits, end);
  }

  lemma {:induction false} WordTextAt(s: string, p: nat, word: string)
    requires HasAt(s, p, word) && word in {"true", "false"}
    ensures p < |s| && s[p] == word[0] && WordAt(s, p, word)
    ensures word == "false" ==> !WordAt(s, p, "true")
  {
    HasAtChars(s, p, word);
    assert s[p + 0] == word[0];
    assert WordAt(s, p, "true") ==> ToLower(s[p + 0]) == ToLower("true"[0]);
  }

  lemma {:induction false} NoWordAt(s: string, p: nat, c: char)
    requires p < |s| && s[p] == c && ToLower(c) != 't' && ToLower(c) != 'f'
    ensures !WordAt(s, p, "true") && !WordAt(s, p, "false")
  {
    assert WordAt(s, p, "true") ==> ToLower(s[p + 0]) == ToLower("true"[0]);
    assert WordAt(s, p, "false") ==> ToLower(s[p + 0]) == ToLower("false"[0]);
  }

  lemma {:induction false} BoolTextAt(s: string, p: nat, b: bool, strtod: Strtod)
    requires HasAt(s, p, FormatScalar(BoolV(b))) && Follows(At(s, p + |FormatScalar(BoolV(b))|))
    ensures p < |s| && (s[p] == 't' || s[p] == 'f')
    ensures ParseValue(s, p, strtod) == Ok(BoolV(b), p + |FormatScalar(BoolV(b))|)
  {
    hide HasAt, WordAt, ParseString, ParseNumber, ParseElements;
    WordTextAt(s, p, if b then "true" else "false");
    SkipNone(s, p);
  }

  lemma {:induction false} IntTextAt(s: string, p: nat, i: int, strtod: Strtod)
    requires HasAt(s, p, IntText(i)) && Follows(At(s, p + |IntText(i)|))
    ensures p < |s| && (s[p] == '-' || IsDigit(s[p]))
    ensures ParseValue(s, p, strtod) == Ok(IntV(i), p + |IntText(i)|)
  {
    hide HasAt, WordAt, ParseString, ParseNumber, ParseElements;
    NumberAt(s, p, i, strtod);
    NoWordAt(s, p, s[p]);
    SkipNone(s, p);
  }

  lemma {:induction false} StrTextAt(s: string, p: nat, str: string, strtod: Strtod)
    requires HasAt(s, p, FormatScalar(StrV(str))) && |str| <= MAX_STRING_VALUE_LENGTH
    ensures p < |s| && s[p] == '\"'
    ensures ParseValue(s, p, strtod) == Ok(StrV(str), p + |FormatScalar(StrV(str))|)
  {
    hide HasAt, WordAt, ParseString, ParseNumber, ParseElements, EscapeString;
    QuotedAt(s, p, str);
    SkipNone(s, p);
  }

  lemma {:induction false} ScalarTextAt(s: string, p: nat, d: Data, strtod: Strtod)
    requires ScalarOk(d) && HasAt(s, p, FormatScalar(d)) && Follows(At(s, p + |FormatScalar(d)|))
    ensures p < |s| && !IsBlank(s[p]) && s[p] != ']' && s[p] != '.' && s[p] != '_'
    ensures ParseValue(s, p, strtod) == Ok(d, p + |FormatScalar(d)|)
  {
    hide HasAt, ParseValue;
    match d
    case IntV(i) => IntTextAt(s, p, i, strtod);
    case BoolV(b) => BoolTextAt(s, p, b, strtod);
    case StrV(str) => StrTextAt(s, p, str, strtod);
  }

  lemma {:induction false} LeadingBlanks(s: string, p: nat, strtod: Strtod)
    requires p <= |s|
    ensures ParseValue(s, SkipBlanks(s, p), strtod) == ParseValue(s, p, strtod)
  {
    hide ParseValueAt;
    SkipNone(s, SkipBlanks(s, p));
  }

  // ---- Arrays ----

  /** Scalars of one kind. */
  predicate Homogeneous(ds: seq<Data>) {
    forall i :: 0 <= i < |ds| ==> ScalarOk(ds[i]) && Tag(ds[i]) == Tag(ds[0])
  }

  lemma {:induction false} JoinHead(ds: seq<Data>)
    requires ds != []
    ensures FormatScalars(ds)[0] == FormatScalar(ds[0]) && FormatScalars(ds)[1..] == FormatScalars(ds[1..])
    ensures |ds| == 1 ==> Join(FormatScalars(ds)) == FormatScalar(ds[0])
    ensures |ds| > 1 ==> Join(FormatScalars(ds)) == FormatScalar(ds[0]) + (", " + Join(FormatScalars(ds[1..])))
  {
  }

  /** The first element of a printed list parses, and what follows it is the rest of the list. */
  lemma {:induction false} FirstElementAt(s: string, p: nat, ds: seq<Data>, strtod: Strtod)
    requires ds != [] && ScalarOk(ds[0]) && HasAt(s, p, Join(FormatScalars(ds)) + "]")
    ensures var q := p + |FormatScalar(ds[0])|;
            && p < |s| && !IsBlank(s[p]) && s[p] != ']' && s[p] != '.'
            && ParseValue(s, p, strtod) == Ok(ds[0], q)
            && (|ds| == 1 ==> HasAt(s, q, "]") && |Join(FormatScalars(ds))| == |FormatScalar(ds[0])|)
            && (|ds| > 1 ==>
                  && HasAt(s, q, ", ") && HasAt(s, q + 2, Join(FormatScalars(ds[1..])) + "]")
                  && |Join(FormatScalars(ds))| == |FormatScalar(ds[0])| + 2 + |Join(FormatScalars(ds[1..]))|)
  {
    hide HasAt, ParseValue, FormatScalar, FormatScalars, ScalarOk;
    JoinHead(ds);
    var e := FormatScalar(ds[0]);
    var q := p + |e|;
    HasAtSplit(s, p, Join(FormatScalars(ds)), "]");
    if |ds| == 1 {
      HasAtFirst(s, q, "]");
    } else {
      var rest := Join(FormatScalars(ds[1..]));
      HasAtSplit(s, p, e, ", " + rest);
      HasAtSplit(s, q, ", ", rest);
      HasAtSplit(s, q + 2, rest, "]");
      HasAtTwo(s, q, ',', ' ');
    }
    ScalarTextAt(s, p, ds[0], strtod);
  }

  lemma {:induction false} ElementsAt(s: string, p0: nat, p: nat, ds: seq<Data>, acc: seq<Data>, strtod: Strtod)
    requires ds != [] && Homogeneous(acc + ds) && |acc + ds| <= MAX_ARRAY_LENGTH
    requires p0 <= |s| && SkipBlanks(s, p0) == p && HasAt(s, p, Join(FormatScalars(ds)) + "]")
    ensures ParseElements(s, p0, strtod, acc) == Ok(ArrayV(acc + ds), p + |Join(FormatScalars(ds))| + 1)
    decreases |ds|
  {
    hide HasAt, ParseValue, FormatScalar, FormatScalars, Join, ScalarOk, Tag;
    assert (acc + ds)[|acc|] == ds[0] && (acc != [] ==> (acc + ds)[0] == acc[0]);
    FirstElementAt(s, p, ds, strtod);
    LeadingBlanks(s, p0, strtod);
    var q := p + |FormatScalar(ds[0])|;
    if |ds| == 1 {
      HasAtFirst(s, q, "]");
      SkipNone(s, q);
      assert [ds[0]] == ds;
    } else {
      HasAtTwo(s, q, ',', ' ');
      SkipNone(s, q);
      FirstElementAt(s, q + 2, ds[1..], strtod) by {
        assert (acc + ds)[|acc| + 1] == ds[1];
      }
      SkipOne(s, q + 1);
      assert acc + ds == acc + [ds[0]] + ds[1..];
      ElementsAt(s, q + 1, q + 2, ds[1..], acc + [ds[0]], strtod);
    }
  }

  lemma {:induction false} SkipOne(s: string, p: nat)
    requires p + 1 < |s| && s[p] == ' ' && !IsBlank(s[p + 1])
    ensures SkipBlanks(s, p) == p + 1
  {
    SkipNone(s, p + 1);
  }

  lemma {:induction false} ArrayTextAt(s: string, p: nat, ds: seq<Data>, strtod: Strtod)
    requires Homogeneous(ds) && |ds| <= MAX_ARRAY_LENGTH && HasAt(s, p, FormatArray(ds))
    ensures p < |s| && s[p] == '['
    ensures ParseValue(s, p, strtod) == Ok(ArrayV(ds), p + |FormatArray(ds)|)
  {
    hide HasAt, FormatScalar, FormatScalars, ScalarOk, Tag, WordAt, ParseString, ParseNumber, ParseElements;
    var body := Join(FormatScalars(ds));
    HasAtSplit(s, p, "[", body + "]");
    HasAtFirst(s, p, "[");
    NoWordAt(s, p, '[');
    SkipNone(s, p);
    if ds == [] {
      assert body == [];
      assert body + "]" == "]";
      HasAtFirst(s, p + 1, "]");
      SkipNone(s, p + 1);
    } else {
      FirstElementAt(s, p + 1, ds, strtod);
      SkipNone(s, p + 1);
      assert [] + ds == ds;
      ElementsAt(s, p + 1, p + 1, ds, [], strtod);
    }
  }

  lemma {:induction false} DotsAt(s: string, p: nat)
    requires HasAt(s, p, "[...+")
    ensures p + 5 <= |s| && s[p] == '[' && s[p + 1] == '.' && s[p + 2] == '.' && s[p + 3] == '.' && s[p + 4] == '+'
  {
    var e := "[...+";
    HasAtChars(s, p, e);
    assert s[p + 0] == e[0] && s[p + 1] == e[1] && s[p + 2] == e[2] && s[p + 3] == e[3] && s[p + 4] == e[4];
  }

  lemma {:induction false} AppendTextAt(s: string, p: nat, d: Data, strtod: Strtod)
    requires ScalarOk(d) && HasAt(s, p, FormatArrayAppend(d))
    ensures p < |s| && s[p] == '['
    ensures ParseValue(s, p, strtod) == Ok(AppendV(d), p + |FormatArrayAppend(d)|)
  {
    hide HasAt, FormatScalar, ScalarOk, WordAt, ParseString, ParseNumber, ParseElements;
    HasAtSplit(s, p, "[...+", FormatScalar(d) + "]");
    HasAtSplit(s, p + 5, FormatScalar(d), "]");
    DotsAt(s, p);
    var q := p + 5 + |FormatScalar(d)|;
    HasAtFirst(s, q, "]");
    NoWordAt(s, p, '[');
    SkipNone(s, p);
    SkipNone(s, p + 1);
    ScalarTextAt(s, p + 5, d, strtod);
    SkipNone(s, q);
  }
}
