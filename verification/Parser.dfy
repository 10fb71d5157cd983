/**
 * The server's command parser: paren split, value count, value parse. `strtod`, the C
 * library's double reader, is an input: bit pattern and end position.
 */
module Parser {
  import opened Values
  import opened Spans
  import opened Text
  import opened Printer

  type Strtod = (string, nat) -> (nat, nat)

  datatype Parsed = Ok(value: Data, pos: nat) | Err(code: int)

  // ---- Strings ----

  /** What an escape letter stands for. */
  function UnescapeChar(c: char): char {
    match c
    case 'n' => '\n'
    case 't' => '\t'
    case 'r' => '\r'
    case _ => c
  }

  /** The text from p up to the closing quote, unescaped, and the position past the quote. */
  function StringBody(s: string, p: nat): (r: Option<(string, nat)>)
    requires p <= |s|
    ensures r.Some? ==> p < r.value.1 <= |s|
    decreases |s| - p
  {
    if p == |s| then None
    else if s[p] == '\"' then Some(([], p + 1))
    else
      var escaped := s[p] == '\\' && p + 1 < |s|;
      match StringBody(s, if escaped then p + 2 else p + 1)
      case None => None
      case Some((rest, q)) => Some(([if escaped then UnescapeChar(s[p + 1]) else s[p]] + rest, q))
  }

  /** A quoted string starting at p. */
  function ParseString(s: string, p: nat): (r: Option<(string, nat)>)
    requires p <= |s|
    ensures r.Some? ==> p < r.value.1 <= |s|
  {
    if At(s, p) != '\"' then None else StringBody(s, p + 1)
  }

  // ---- Numbers ----

  function ParseInt(s: string, p: nat): (r: Option<(int, nat)>)
    requires p <= |s|
    ensures r.Some? ==> p < r.value.1 <= |s|
  {
    var neg := At(s, p) == '-';
    var q := if neg || At(s, p) == '+' then p + 1 else p;
    if !IsDigit(At(s, q)) then None
    else
      var (n, end) := DigitRun(s, q, 0);
      var i: int := n;
      Some((if neg then -i else i, end))
  }

  /** A point or exponent occurs in the run of number characters starting at p. */
  predicate LooksDouble(s: string, p: nat)
    requires p <= |s|
    decreases |s| - p
  {
    if IsDigit(At(s, p)) then LooksDouble(s, p + 1) else At(s, p) in {'.', 'e', 'E'}
  }

  function ParseNumber(s: string, p: nat, strtod: Strtod): (r: Parsed)
    requires p < |s|
    ensures r.Ok? ==> p < r.pos <= |s|
  {
    var digits := if s[p] == '-' || s[p] == '+' then p + 1 else p;
    if LooksDouble(s, digits) then
      var (bits, end) := strtod(s, p);
      if p < end <= |s| then Ok(DoubleV(bits), end) else Err(-4)
    else
      match ParseInt(s, p)
      case None => Err(-5)
      case Some((i, end)) => Ok(IntV(i), end)
  }

  // ---- Values ----

  /** Ends a boolean word. */
  predicate EndsWord(c: char) {
    c in {',', ')', ']', '\0'} || IsSpace(c)
  }

  /** The parser's type tag: -2 int, -1 double, -3 bool, 0 string, -4 to -7 arrays. */
  function Tag(d: Data): int {
    match d
    case IntV(_) => -2
    case DoubleV(_) => -1
    case BoolV(_) => -3
    case StrV(_) => 0
    case NullStr => 0
    case ArrayV(elems) => if elems == [] then -4 else ArrayTag(Tag(elems[0]))
    case AppendV(elem) => ArrayTag(Tag(elem))
  }

  function ArrayTag(elemTag: int): int {
    if elemTag == -2 then -4 else if elemTag == -1 then -5 else if elemTag == -3 then -6 else -7
  }

  function ParseValue(s: string, p: nat, strtod: Strtod): (r: Parsed)
    requires p <= |s|
    ensures r.Ok? ==> p < r.pos <= |s|
    decreases |s| - p, 1
  {
    ParseValueAt(s, SkipBlanks(s, p), strtod)
  }

  /** A value with no blanks before it. */
  function ParseValueAt(s: string, p: nat, strtod: Strtod): (r: Parsed)
    requires p <= |s|
    ensures r.Ok? ==> p < r.pos <= |s|
    decreases |s| - p, 0
  {
    if At(s, p) == '\"' then
      match ParseString(s, p)
      case None => Err(-3)
      case Some((str, q)) => if |str| > MAX_STRING_VALUE_LENGTH then Err(-8) else Ok(StrV(str), q)
    else if WordAt(s, p, "true") && EndsWord(At(s, p + 4)) then Ok(BoolV(true), p + 4)
    else if WordAt(s, p, "false") && EndsWord(At(s, p + 5)) then Ok(BoolV(false), p + 5)
    else if At(s, p) == '-' || At(s, p) == '+' || IsDigit(At(s, p)) then ParseNumber(s, p, strtod)
    else if At(s, p) == '[' then
      var q := SkipBlanks(s, p + 1);
      if At(s, q) == '.' && At(s, q + 1) == '.' && At(s, q + 2) == '.' && At(s, q + 3) == '+' then
        match ParseValue(s, q + 4, strtod)
        case Err(_) => Err(-6)
        case Ok(elem, end) =>
          var close := SkipBlanks(s, end);
          if At(s, close) == ']' then Ok(AppendV(elem), close + 1) else Err(-6)
      else if At(s, q) == ']' then Ok(ArrayV([]), q + 1)
      else ParseElements(s, q, strtod, [])
    else Err(-6)
  }

  /** The elements of an array literal from p on, after those already parsed. */
  function ParseElements(s: string, p: nat, strtod: Strtod, acc: seq<Data>): (r: Parsed)
    requires p <= |s|
    ensures r.Ok? ==> p < r.pos <= |s|
    decreases |s| - p, 2
  {
    if |acc| >= MAX_ARRAY_LENGTH then Err(-6)
    else
      match ParseValue(s, p, strtod)
      case Err(_) => Err(-6)
      case Ok(elem, end) =>
        if acc != [] && Tag(acc[0]) != Tag(elem) then Err(-6)
        else
          var q := SkipBlanks(s, end);
          if At(s, q) == ',' then ParseElements(s, q + 1, strtod, acc + [elem])
          else if At(s, q) == ']' then Ok(ArrayV(acc + [elem]), q + 1)
          else Err(-6)
  }

  datatype ParsedItem = OkItem(item: Item, pos: nat) | ErrItem(code: int)

  /** One value of an ADD, or of an UP when the ignore mark is allowed. */
  function ParseItem(s: string, p: nat, marks: bool, strtod: Strtod): (r: ParsedItem)
    requires p <= |s|
    ensures r.OkItem? ==> p < r.pos <= |s|
  {
    var q := SkipBlanks(s, p);
    if marks && At(s, q) == '_' && (At(s, q + 1) in {',', ')', '\0'} || IsSpace(At(s, q + 1))) then OkItem(Ignored, q + 1)
    else
      match ParseValue(s, q, strtod)
      case Err(code) => ErrItem(code)
      case Ok(d, end) => OkItem(Value(d), end)
  }

  // ---- The counting pass ----

  /** The counter's state: commas at top level, anything but blanks seen, inside quotes, bracket depth. */
  datatype Counter = Counter(commas: nat, content: bool, quoted: bool, depth: nat)

  const START: Counter := Counter(0, false, false, 0)

  function Count1(st: Counter, c: char): Counter {
    if c == '\"' then st.(quoted := !st.quoted, content := true)
    else if st.quoted then st.(content := true)
    else if c == '[' then st.(depth := st.depth + 1, content := true)
    else if c == ']' then st.(depth := if st.depth > 0 then st.depth - 1 else 0, content := true)
    else if c == ',' && st.depth == 0 then st.(commas := st.commas + 1)
    else if !IsSpace(c) then st.(content := true)
    else st
  }

  function CountAll(st: Counter, s: string): Counter
    decreases |s|
  {
    if s == [] then st else CountAll(Count1(st, s[0]), s[1..])
  }

  /** The number of values the counting pass expects. */
  function CountValues(s: string): nat {
    var st := CountAll(START, s);
    if st.content then st.commas + 1 else st.commas
  }

  // ---- The value list ----

  datatype Result<T> = Success(value: T) | Failure(code: int)

  const DEFAULT_ITEM: Item := Value(NullStr)

  /** At most `left` values from p on, after those already parsed; slots never reached stay default. */
  function ParseItems(s: string, p: nat, left: nat, marks: bool, strtod: Strtod, acc: seq<Item>): Result<seq<Item>>
    requires p <= |s|
    decreases left
  {
    if left == 0 then Success(acc)
    else
      match ParseItem(s, SkipBlanks(s, p), marks, strtod)
      case ErrItem(code) => Failure(code)
      case OkItem(item, end) =>
        var q := SkipBlanks(s, end);
        if At(s, q) == ',' then ParseItems(s, q + 1, left - 1, marks, strtod, acc + [item])
        else if q == |s| then Success(acc + [item] + seq(left - 1, _ => DEFAULT_ITEM))
        else Failure(-7)
  }

  /** The values inside the parentheses. */
  function TokenizeItems(s: string, marks: bool, strtod: Strtod): Result<seq<Item>> {
    var count := CountValues(s);
    if count == 0 then Failure(-2) else ParseItems(s, 0, count, marks, strtod, [])
  }

  // ---- The paren split ----

  function FindChar(s: string, p: nat, c: char): (r: Option<nat>)
    requires p <= |s|
    ensures r.Some? ==> p <= r.value < |s| && s[r.value] == c && c !in s[p..r.value]
    ensures r.None? ==> c !in s[p..]
    decreases |s| - p
  {
    if p == |s| then None
    else if s[p] == c then Some(p)
    else FindChar(s, p + 1, c)
  }

  /** The position of the parenthesis that closes the one at `open`: quotes not preceded by a backslash toggle. */
  function CloseParen(s: string, open: nat, p: nat, depth: nat, quoted: bool): (r: Option<nat>)
    requires open < p <= |s|
    ensures r.Some? ==> p <= r.value < |s| && s[r.value] == ')'
    decreases |s| - p
  {
    if p == |s| then None
    else if s[p] == '\"' && (p == open + 1 || s[p - 1] != '\\') then CloseParen(s, open, p + 1, depth, !quoted)
    else if !quoted && s[p] == '(' then CloseParen(s, open, p + 1, depth + 1, quoted)
    else if !quoted && s[p] == ')' then
      if depth <= 1 then Some(p) else CloseParen(s, open, p + 1, depth - 1, quoted)
    else CloseParen(s, open, p + 1, depth, quoted)
  }

  /** The text before the first parenthesis and the text inside it. */
  function SplitAtParen(s: string): Result<(string, string)> {
    var start := SkipBlanks(s, 0);
    match FindChar(s, start, '(')
    case None => Failure(-3)
    case Some(open) =>
      match CloseParen(s, open, open + 1, 1, false)
      case None => Failure(-1)
      case Some(close) => Success((s[start..open], s[open + 1..close]))
  }

  // ---- Commands ----

  /** The first two whitespace-separated words. */
  function TokenizeArgs(s: string): Result<(string, string)> {
    var p := SkipBlanks(s, 0);
    var q := TokenEnd(s, p);
    if q == p then Failure(-1)
    else
      var p2 := SkipBlanks(s, q);
      var q2 := TokenEnd(s, p2);
      if q2 == p2 then Failure(-2) else Success((s[p..q], s[p2..q2]))
  }

  datatype ParseError =
    | InvalidCommand | InvalidFormat | MissingArgument(what: string) | InvalidIdentifier
    | SyntaxError(what: string) | LimitExceeded

  datatype Command =
    | AddCommand(db: string, key: AddKey, items: seq<Item>)
    | UpCommand(db: string, row: int, items: seq<Item>)
    | OtherCommand(op: nat, args: string)
    | ErrorCommand(error: ParseError)

  const MAX_NAME: nat := 63

  function Truncate(s: string): string {
    if |s| <= MAX_NAME then s else s[..MAX_NAME]
  }

  function ValuesError(code: int): ParseError {
    match code
    case -2 => MissingArgument("values")
    case -3 => SyntaxError("unterminated string")
    case -4 => SyntaxError("invalid double value")
    case -5 => SyntaxError("invalid integer value")
    case -6 => SyntaxError("invalid value")
    case -7 => SyntaxError("expected ',' or ')'")
    case _ => LimitExceeded
  }

  /** The whole word is an integer. */
  function WholeInt(s: string): Option<int> {
    match ParseInt(s, 0)
    case None => None
    case Some((i, end)) => if end == |s| then Some(i) else None
  }

  /** ADD and UP share everything but the key syntax and the ignore mark. */
  function ParseWrite(args: string, up: bool, strtod: Strtod): Command {
    match SplitAtParen(args)
    case Failure(code) => ErrorCommand(if code == -1 then SyntaxError("unmatched parenthesis") else InvalidFormat)
    case Success((before, inside)) =>
      match TokenizeArgs(before)
      case Failure(code) => ErrorCommand(MissingArgument(if code == -1 then "database name" else "key"))
      case Success((db, key)) =>
        if !IsIdentifier(db) then ErrorCommand(InvalidIdentifier)
        else if (up || key != "*") && WholeInt(key).None? then ErrorCommand(SyntaxError("key"))
        else
          match TokenizeItems(inside, up, strtod)
          case Failure(code) => ErrorCommand(ValuesError(code))
          case Success(items) =>
            if up then UpCommand(Truncate(db), WholeInt(key).value, items)
            else AddCommand(Truncate(db), if key == "*" then Auto else Given(WholeInt(key).value), items)
  }

  const COMMANDS: seq<string> := [
    "CREATE", "ADD", "UP", "GET", "DEL", "GET_ALL", "SEARCH", "COUNT", "CREATE_INDEX", "AUTH",
    "ADD_KEY", "DEL_KEY", "LIST_KEYS", "WHOAMI", "DEL_TABLE"]

  const OP_ADD: nat := 1
  const OP_UP: nat := 2

  predicate CommandAt(s: string, p: nat, op: nat)
    requires op < |COMMANDS|
  {
    WordAt(s, p, COMMANDS[op]) && At(s, p + |COMMANDS[op]|) in {'\0', ' ', '\t'}
  }

  /** The first command name, from number `op` on, that the text starts with. */
  function DetermineOperation(s: string, p: nat, op: nat): (r: Option<nat>)
    requires op <= |COMMANDS|
    ensures r.Some? ==> r.value < |COMMANDS| && CommandAt(s, p, r.value)
    decreases |COMMANDS| - op
  {
    if op == |COMMANDS| then None
    else if CommandAt(s, p, op) then Some(op)
    else DetermineOperation(s, p, op + 1)
  }

  /** A command as received: C text ends at the first NUL. */
  function ParseCommand(raw: string, strtod: Strtod): Command {
    var s := CString(raw);
    var p := SkipBlanks(s, 0);
    match DetermineOperation(s, p, 0)
    case None => ErrorCommand(InvalidCommand)
    case Some(op) =>
      var args := s[p + |COMMANDS[op]|..];
      if op == OP_ADD then ParseWrite(args, false, strtod)
      else if op == OP_UP then ParseWrite(args, true, strtod)
      else OtherCommand(op, args)
  }
}
