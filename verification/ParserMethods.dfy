/** The parser as the server runs it: a moving position, counters, and buffers filled in place. */
module ParserMethods {
  import opened Values
  import opened Spans
  import opened Text
  import opened Printer
  import opened Parser
  import ValueRoundTrip

  method SkipWhitespace(s: string, start: nat) returns (p: nat)
    requires start <= |s|
    ensures p == SkipBlanks(s, start)
  {
    p := start;
    while p < |s| && (s[p] == ' ' || s[p] == '\t')
      invariant start <= p <= |s| && SkipBlanks(s, p) == SkipBlanks(s, start)
    {
      p := p + 1;
    }
  }

  /** How many characters the copy pass will produce, and whether the string is closed. */
  ghost function BodyLength(s: string, p: nat): (n: nat)
    requires p <= |s|
    decreases |s| - p
  {
    if p == |s| || s[p] == '\"' then 0
    else 1 + BodyLength(s, if s[p] == '\\' && p + 1 < |s| then p + 2 else p + 1)
  }

  lemma {:induction false} BodyLengthIs(s: string, p: nat)
    requires p <= |s| && StringBody(s, p).Some?
    ensures BodyLength(s, p) == |StringBody(s, p).value.0|
    decreases |s| - p
  {
    if s[p] != '\"' {
      BodyLengthIs(s, if s[p] == '\\' && p + 1 < |s| then p + 2 else p + 1);
    }
  }

  /** The length pass: counts what the copy pass will write. */
  method MeasureString(s: string, start: nat) returns (closed: bool, len: nat)
    requires start <= |s|
    ensures closed == StringBody(s, start).Some?
    ensures len == BodyLength(s, start)
  {
    var p := start;
    len := 0;
    while p < |s| && s[p] != '\"'
      invariant start <= p <= |s|
      invariant len + BodyLength(s, p) == BodyLength(s, start)
      invariant StringBody(s, p).Some? == StringBody(s, start).Some?
      decreases |s| - p
    {
      if s[p] == '\\' && p + 1 < |s| {
        p := p + 2;
      } else {
        p := p + 1;
      }
      len := len + 1;
    }
    closed := p < |s|;
  }

  /**
   * A quoted string, in two passes: one measures, one copies into a buffer of exactly
   * that size plus the terminator. Every write is in bounds and the buffer is filled.
   */
  method ParseQuoted(s: string, start: nat) returns (r: Option<(string, nat)>)
    requires start <= |s|
    ensures r == ParseString(s, start)
  {
    if At(s, start) != '\"' {
      return None;
    }
    var closed, len := MeasureString(s, start + 1);
    if !closed {
      return None;
    }
    ghost var target := StringBody(s, start + 1).value;
    BodyLengthIs(s, start + 1);
    var buf := new char[len + 1];
    var p, i := start + 1, 0;
    while s[p] != '\"'
      invariant start < p < |s| && i <= len
      invariant StringBody(s, p).Some? && StringBody(s, p).value.1 == target.1
      invariant i + BodyLength(s, p) == len
      invariant buf[..i] + StringBody(s, p).value.0 == target.0
      decreases |s| - p
    {
      BodyLengthIs(s, p);
      ghost var rest := StringBody(s, p).value.0;
      if s[p] == '\\' && p + 1 < |s| {
        buf[i] := UnescapeChar(s[p + 1]);
        p := p + 2;
      } else {
        buf[i] := s[p];
        p := p + 1;
      }
      assert buf[..i + 1] == buf[..i] + [rest[0]];
      ConcatAssociates(buf[..i], [rest[0]], StringBody(s, p).value.0);
      i := i + 1;
    }
    ghost var done := buf[..i];
    assert done + [] == target.0;
    buf[i] := '\0';
    var text := buf[..len];
    assert text == done;
    r := Some((text, p + 1));
    assert r.value.0 == target.0 && r.value.1 == target.1;
  }

  /** A signed run of digits. */
  method ParseInteger(s: string, start: nat) returns (r: Option<(int, nat)>)
    requires start <= |s|
    ensures r == ParseInt(s, start)
  {
    var p := start;
    var neg := false;
    if At(s, p) == '-' {
      neg := true;
      p := p + 1;
    } else if At(s, p) == '+' {
      p := p + 1;
    }
    if !IsDigit(At(s, p)) {
      return None;
    }
    ghost var from := p;
    var value: int := 0;
    while IsDigit(At(s, p))
      invariant from <= p <= |s| && value >= 0
      invariant DigitRun(s, p, value) == DigitRun(s, from, 0)
      decreases |s| - p
    {
      value := value * 10 + (s[p] as int - '0' as int);
      p := p + 1;
    }
    return Some((if neg then -value else value, p));
  }

  /** Looks for a point or exponent among the number characters. */
  method ScanNumber(s: string, start: nat) returns (isDouble: bool)
    requires start <= |s|
    ensures isDouble == LooksDouble(s, start)
  {
    var p := start;
    isDouble := false;
    while p < |s| && (IsDigit(s[p]) || s[p] in {'.', 'e', 'E'})
      invariant start <= p <= |s|
      invariant isDouble ==> LooksDouble(s, start)
      invariant !isDouble ==> LooksDouble(s, p) == LooksDouble(s, start)
    {
      if s[p] in {'.', 'e', 'E'} {
        isDouble := true;
      }
      p := p + 1;
    }
  }

  /** One value: string, boolean, number, or array literal. */
  method ParseSingleValue(s: string, start: nat, strtod: Strtod) returns (r: Parsed)
    requires start <= |s|
    ensures r == ParseValue(s, start, strtod)
    decreases |s| - start, 1
  {
    hide StringBody, ParseInt, WordAt, LooksDouble;
    var p := SkipWhitespace(s, start);
    if At(s, p) == '\"' {
      var str := ParseQuoted(s, p);
      if str.None? {
        return Err(-3);
      }
      if |str.value.0| > MAX_STRING_VALUE_LENGTH {
        return Err(-8);
      }
      return Ok(StrV(str.value.0), str.value.1);
    } else if WordAt(s, p, "true") && EndsWord(At(s, p + 4)) {
      return Ok(BoolV(true), p + 4);
    } else if WordAt(s, p, "false") && EndsWord(At(s, p + 5)) {
      return Ok(BoolV(false), p + 5);
    } else if At(s, p) == '-' || At(s, p) == '+' || IsDigit(At(s, p)) {
      r := ParseNumeric(s, p, strtod);
    } else if At(s, p) == '[' {
      r := ParseArray(s, p, strtod);
    } else {
      return Err(-6);
    }
  }

  method ParseNumeric(s: string, p: nat, strtod: Strtod) returns (r: Parsed)
    requires p < |s|
    ensures r == ParseNumber(s, p, strtod)
  {
    var isDouble := ScanNumber(s, if s[p] == '-' || s[p] == '+' then p + 1 else p);
    if isDouble {
      var (bits, end) := strtod(s, p);
      if !(p < end <= |s|) {
        return Err(-4);
      }
      return Ok(DoubleV(bits), end);
    }
    var i := ParseInteger(s, p);
    if i.None? {
      return Err(-5);
    }
    return Ok(IntV(i.value.0), i.value.1);
  }

  /** An array literal or an append, with its homogeneous element loop. */
  method ParseArray(s: string, p: nat, strtod: Strtod) returns (r: Parsed)
    requires p < |s| && s[p] == '['
    ensures r == ParseValueAt(s, p, strtod)
    decreases |s| - p, 0
  {
    hide WordAt, ParseNumber, ParseString, ParseElements, SkipBlanks;
    ValueRoundTrip.NoWordAt(s, p, '[');
    var q := SkipWhitespace(s, p + 1);
    if At(s, q) == '.' && At(s, q + 1) == '.' && At(s, q + 2) == '.' && At(s, q + 3) == '+' {
      var elem := ParseSingleValue(s, q + 4, strtod);
      if elem.Err? {
        return Err(-6);
      }
      var close := SkipWhitespace(s, elem.pos);
      if At(s, close) != ']' {
        return Err(-6);
      }
      return Ok(AppendV(elem.value), close + 1);
    } else if At(s, q) == ']' {
      return Ok(ArrayV([]), q + 1);
    }
    r := ParseElementLoop(s, q, strtod);
  }

  method ParseElementLoop(s: string, start: nat, strtod: Strtod) returns (r: Parsed)
    requires start <= |s|
    ensures r == ParseElements(s, start, strtod, [])
    decreases |s| - start, 2
  {
    hide ParseValue, SkipBlanks;
    ghost var target := ParseElements(s, start, strtod, []);
    var elems := [];
    var firstTag := 0;
    var p := start;
    while true
      invariant start <= p <= |s|
      invariant ParseElements(s, p, strtod, elems) == target
      invariant elems != [] ==> firstTag == Tag(elems[0])
      decreases |s| - p
    {
      if |elems| >= MAX_ARRAY_LENGTH {
        return Err(-6);
      }
      var elem := ParseSingleValue(s, p, strtod);
      if elem.Err? {
        return Err(-6);
      }
      if elems == [] {
        firstTag := Tag(elem.value);
      } else if firstTag != Tag(elem.value) {
        return Err(-6);
      }
      elems := elems + [elem.value];
      p := SkipWhitespace(s, elem.pos);
      if At(s, p) == ',' {
        p := p + 1;
      } else if At(s, p) == ']' {
        return Ok(ArrayV(elems), p + 1);
      } else {
        return Err(-6);
      }
    }
  }

  /** The counting pass: separators outside quotes and brackets, plus one for the last value. */
  method CountPass(s: string) returns (count: nat)
    ensures count == CountValues(s)
  {
    var hasContent, inString, inBracket := false, false, 0;
    count := 0;
    var p := 0;
    while p < |s|
      invariant 0 <= p <= |s| && 0 <= inBracket
      invariant CountAll(Counter(count, hasContent, inString, inBracket), s[p..]) == CountAll(START, s)
    {
      assert s[p..][1..] == s[p + 1..];
      if s[p] == '\"' {
        inString := !inString;
        hasContent := true;
      } else if !inString {
        if s[p] == '[' {
          inBracket := inBracket + 1;
          hasContent := true;
        } else if s[p] == ']' {
          if inBracket > 0 {
            inBracket := inBracket - 1;
          }
          hasContent := true;
        } else if s[p] == ',' && inBracket == 0 {
          count := count + 1;
        } else if !IsSpace(s[p]) {
          hasContent := true;
        }
      } else {
        hasContent := true;
      }
      p := p + 1;
    }
    if hasContent {
      count := count + 1;
    }
  }

  /** Counts, then parses into that many slots; slots past the last value keep their default. */
  method Tokenize(s: string, marks: bool, strtod: Strtod) returns (r: Result<seq<Item>>)
    ensures r == TokenizeItems(s, marks, strtod)
  {
    hide CountValues, ParseItem;
    var count := CountPass(s);
    if count == 0 {
      return Failure(-2);
    }
    var values: seq<Item> := [];
    var p := 0;
    while |values| < count
      invariant 0 <= p <= |s| && |values| <= count
      invariant ParseItems(s, p, count - |values|, marks, strtod, values) == ParseItems(s, 0, count, marks, strtod, [])
      decreases count - |values|
    {
      p := SkipWhitespace(s, p);
      var item := ParseUpdateValue(s, p, marks, strtod);
      if item.ErrItem? {
        return Failure(item.code);
      }
      values := values + [item.item];
      p := SkipWhitespace(s, item.pos);
      if At(s, p) == ',' {
        p := p + 1;
      } else if p == |s| {
        return Success(values + seq(count - |values|, _ => DEFAULT_ITEM));
      } else {
        return Failure(-7);
      }
    }
    return Success(values);
  }

  method ParseUpdateValue(s: string, start: nat, marks: bool, strtod: Strtod) returns (r: ParsedItem)
    requires start <= |s|
    ensures r == ParseItem(s, start, marks, strtod)
  {
    hide ParseValue;
    var p := SkipWhitespace(s, start);
    if marks && At(s, p) == '_' && (At(s, p + 1) in {',', ')', '\0'} || IsSpace(At(s, p + 1))) {
      return OkItem(Ignored, p + 1);
    }
    var v := ParseSingleValue(s, p, strtod);
    match v {
      case Err(code) => return ErrItem(code);
      case Ok(d, end) => return OkItem(Value(d), end);
    }
  }

  /** Splits at the first parenthesis and the one that closes it. */
  method SplitParens(s: string) returns (r: Result<(string, string)>)
    ensures r == SplitAtParen(s)
  {
    var start := SkipWhitespace(s, 0);
    var open := start;
    while open < |s| && s[open] != '('
      invariant start <= open <= |s| && FindChar(s, open, '(') == FindChar(s, start, '(')
    {
      open := open + 1;
    }
    if open == |s| {
      return Failure(-3);
    }
    var close := FindClose(s, open);
    if close.None? {
      return Failure(-1);
    }
    return Success((s[start..open], s[open + 1..close.value]));
  }

  /** The depth and quote loop behind the opening parenthesis. */
  method FindClose(s: string, open: nat) returns (close: Option<nat>)
    requires open < |s|
    ensures close == CloseParen(s, open, open + 1, 1, false)
  {
    var p, depth, inString := open + 1, 1, false;
    while p < |s| && depth > 0
      invariant open < p <= |s| && depth >= 0
      invariant depth > 0 ==> CloseParen(s, open, p, depth, inString) == CloseParen(s, open, open + 1, 1, false)
      invariant depth == 0 ==> open + 1 < p && CloseParen(s, open, open + 1, 1, false) == Some(p - 1)
    {
      if s[p] == '\"' && (p == open + 1 || s[p - 1] != '\\') {
        inString := !inString;
      } else if !inString {
        if s[p] == '(' {
          depth := depth + 1;
        } else if s[p] == ')' {
          depth := depth - 1;
        }
      }
      p := p + 1;
    }
    close := if depth == 0 then Some(p - 1) else None;
  }
}
