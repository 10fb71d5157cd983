/** Literal texts: what the command printer and the table printer produce, character by character. */
module Examples {
  import opened Values
  import opened Text
  import opened RowMap
  import opened Tables
  import opened Printer
  import opened Parser
  import opened ItemRoundTrip
  import opened CommandRoundTrip
  import opened TableText

  // ---- Commands ----

  /** The five escapes. */
  lemma {:induction false} EscapeLetters()
    ensures EscapeString("\\") == "\\\\" && EscapeString("\n") == "\\n" && EscapeString("\r") == "\\r"
    ensures EscapeString("\t") == "\\t" && EscapeString("\"") == "\\\""
  {
    hide EscapeString;
    OneEscape('\\');
    OneEscape('\n');
    OneEscape('\r');
    OneEscape('\t');
    OneEscape('\"');
  }

  lemma {:induction false} PlainLetters()
    ensures EscapeString("a(,") == "a" + ("(" + ("," + []))
  {
    hide EscapeString;
    EscapeIsCharwise("a(,");
    EachStep("a(,");
    EachStep("a(,"[1..]);
    EachStep("a(,"[1..][1..]);
    assert "a(,"[1..][1..][1..] == [];
  }

  lemma {:induction false} EachStep(s: string)
    requires s != []
    ensures EscapeEach(s) == EscapeChar(s[0]) + EscapeEach(s[1..])
  {
  }

  lemma {:induction false} OneEscape(c: char)
    ensures EscapeString([c]) == EscapeChar(c)
  {
    EscapeIsCharwise([c]);
    assert [c][1..] == [];
    assert EscapeEach([c]) == EscapeChar(c) + EscapeEach([]);
  }

  lemma {:induction false} SmallNumbers()
    ensures IntText(7) == "7" && IntText(-5) == "-5" && IntText(120) == "120" && IntText(0) == "0"
  {
    assert NatText(12) == NatText(1) + ['2'];
    assert NatText(120) == NatText(12) + ['0'];
  }

  const SENT: seq<Data> := [IntV(-5), BoolV(true), StrV("a\nb"), ArrayV([BoolV(false), BoolV(true)])]

  /** ADD t 7 (-5, true, "a\nb", [false, true]), with the newline escaped. */
  const SENT_TEXT: string :=
    "ADD " + ("t" + (" " + ("7" + (" (" + (("-5" + (", " + ("true" + (", " + ("\"" + ("a\\nb" + "\"") + (", " + "[false, true]")))))) + ")")))))

  /** An ADD as the client prints it, and what the server parses from exactly that text. */
  lemma {:induction false} AddExample(strtod: Strtod)
    ensures BuildAdd("t", Given(7), SENT) == SENT_TEXT
    ensures ParseCommand(SENT_TEXT, strtod) == AddCommand("t", Given(7), AsItems(SENT))
  {
    hide BuildAdd, ParseCommand, SafeItems, IsIdentifier;
    AddExampleText();
    SentSafe();
    AddRoundTrip("t", Given(7), SENT, strtod);
  }

  lemma {:induction false} SentSafe()
    ensures SafeItems(AsItems(SENT), false) && NameWordOk("t")
  {
    var items := AsItems(SENT);
    assert items[0] == Value(IntV(-5)) && items[1] == Value(BoolV(true)) && items[2] == Value(StrV("a\nb"));
    assert items[3] == Value(ArrayV([BoolV(false), BoolV(true)]));
  }

  lemma {:induction false} JoinFour(parts: seq<string>)
    requires |parts| == 4
    ensures Join(parts) == parts[0] + (", " + (parts[1] + (", " + (parts[2] + (", " + parts[3])))))
  {
    assert parts[1..][1..] == parts[2..] && parts[2..][1..] == parts[3..];
    assert Join(parts[3..]) == parts[3];
    assert Join(parts[2..]) == parts[2] + (", " + Join(parts[3..]));
    assert Join(parts[1..]) == parts[1] + (", " + Join(parts[2..]));
  }

  lemma {:induction false} JoinTwo(parts: seq<string>)
    requires |parts| == 2
    ensures Join(parts) == parts[0] + (", " + parts[1])
  {
    assert Join(parts[1..]) == parts[1];
  }

  lemma {:induction false} AddExampleText()
    ensures BuildAdd("t", Given(7), SENT) == SENT_TEXT
  {
    hide EscapeString, Join, IntText, FormatArray;
    SmallNumbers();
    EscapedNewline();
    ArrayExample();
    var parts := FormatValues(SENT);
    assert parts[0] == "-5" && parts[1] == "true" && parts[2] == "\"" + ("a\\nb" + "\"") && parts[3] == "[false, true]";
    JoinFour(parts);
  }

  lemma {:induction false} ArrayExample()
    ensures FormatArray([BoolV(false), BoolV(true)]) == "[false, true]"
  {
    hide Join;
    JoinTwo(FormatScalars([BoolV(false), BoolV(true)]));
  }

  lemma {:induction false} EscapedNewline()
    ensures EscapeString("a\nb") == "a\\nb"
  {
    hide EscapeString;
    EscapeIsCharwise("a\nb");
    EachStep("a\nb");
    EachStep("a\nb"[1..]);
    EachStep("a\nb"[1..][1..]);
    assert "a\nb"[1..][1..][1..] == [];
    assert EscapeEach([]) == [];
  }

  /** An UP with an ignore mark and an append. */
  lemma {:induction false} UpExample(strtod: Strtod)
    ensures BuildUp("t", 7, [Ignored, Value(AppendV(IntV(120)))]) == "UP t 7 (_, [...+120])"
    ensures ParseCommand("UP t 7 (_, [...+120])", strtod) == UpCommand("t", 7, [Ignored, Value(AppendV(IntV(120)))])
  {
    var items := [Ignored, Value(AppendV(IntV(120)))];
    SmallNumbers();
    UpExampleText(items);
    UpRoundTrip("t", 7, items, strtod);
  }

  lemma {:induction false} UpExampleText(items: seq<Item>)
    requires items == [Ignored, Value(AppendV(IntV(120)))]
    ensures BuildUp("t", 7, items) == "UP t 7 (_, [...+120])"
  {
    hide Join;
    SmallNumbers();
    JoinTwo(FormatItems(items));
  }

  // ---- Tables ----

  const FIELDS: seq<Field> := [Field("key", Scalar(KInt)), Field("n", Scalar(KString))]
  const ROW: Row := Row([IntV(7), StrV("ab")], 5, 120)

  /** One row: cells stand left in their columns, headers above a rule, times last. */
  lemma {:induction false} TableExample(g: int -> string)
    ensures Shaped(FIELDS, [ROW])
    ensures FormatRows(FIELDS, [ROW], g)
         == FourColumns("key", "n ", "time_created", "time_updated")
          + (RULE
          + FourColumns("7  ", "ab", "5           ", "120         "))
  {
    hide Render, IntText, Line, RuleLine, Widths, FourColumns;
    SmallNumbers();
    FiveText();
    var headers, row := ["key", "n", "time_created", "time_updated"], ["7", "ab", "5", "120"];
    var widths := [3, 2, 12, 12];
    assert Headers(FIELDS) == headers;
    assert ShownRow(FIELDS, ROW, g) == row;
    assert ShownRows(FIELDS, [ROW], g) == [row];
    ExampleWidths(g);
    HeaderExample();
    DataExample();
    RuleOf(widths);
    RenderOne(headers, row, widths);
  }

  /** A line of four texts between bars. */
  function FourColumns(a: string, b: string, c: string, d: string): string {
    "| " + a + " | " + b + " | " + c + " | " + d + " |\n"
  }

  lemma {:induction false} HeaderExample()
    ensures Line(["key", "n", "time_created", "time_updated"], [3, 2, 12, 12]) == FourColumns("key", "n ", "time_created", "time_updated")
  {
    hide Line, FourColumns;
    LineOf(["key", "n", "time_created", "time_updated"], [3, 2, 12, 12], ["key", "n ", "time_created", "time_updated"]);
  }

  lemma {:induction false} DataExample()
    ensures Line(["7", "ab", "5", "120"], [3, 2, 12, 12]) == FourColumns("7  ", "ab", "5           ", "120         ")
  {
    hide Line, FourColumns;
    LineOf(["7", "ab", "5", "120"], [3, 2, 12, 12], ["7  ", "ab", "5           ", "120         "]);
  }

  lemma {:induction false} FiveText()
    ensures IntText(5) == "5"
  {
  }

  lemma {:induction false} ExampleWidths(g: int -> string)
    ensures Shaped(FIELDS, [ROW]) && Widths(FIELDS, [ROW], g) == [3, 2, 12, 12]
  {
    hide IntText;
    SmallNumbers();
    FiveText();
    assert [ROW][..0] == [];
    assert Headers(FIELDS) == ["key", "n", "time_created", "time_updated"];
    assert Widths(FIELDS, [], g) == [3, 1, 12, 12];
    assert AskedWidths(FIELDS, ROW, g) == [1, 2, 1, 3];
    assert Widths(FIELDS, [ROW], g) == WidestIn(Widths(FIELDS, [], g), AskedWidths(FIELDS, ROW, g));
  }

  lemma {:induction false} RenderOne(headers: seq<string>, row: seq<string>, widths: seq<nat>)
    requires Fits(headers, widths) && Fits(row, widths)
    ensures AllFit([row], widths) && Render(headers, [row], widths) == Line(headers, widths) + (RuleLine(widths) + Line(row, widths))
  {
    hide Line, RuleLine;
    assert [row][1..] == [];
    assert Lines([row], widths) == Line(row, widths) + Lines([], widths);
    assert Line(row, widths) + [] == Line(row, widths);
  }

  /** The cell with blanks behind it up to the width. */
  predicate PaddedTo(cell: string, width: nat, padded: string) {
    |cell| <= width == |padded| && cell <= padded && forall i :: |cell| <= i < width ==> padded[i] == ' '
  }

  lemma {:induction false} LineOf(cells: seq<string>, widths: seq<nat>, padded: seq<string>)
    requires |cells| == 4 && Fits(cells, widths) && |padded| == 4
    requires forall j :: 0 <= j < 4 ==> PaddedTo(cells[j], widths[j], padded[j])
    ensures Line(cells, widths) == FourColumns(padded[0], padded[1], padded[2], padded[3])
  {
    hide PaddedCell;
    PadOf(cells[0], widths[0], padded[0]);
    PadOf(cells[1], widths[1], padded[1]);
    PadOf(cells[2], widths[2], padded[2]);
    PadOf(cells[3], widths[3], padded[3]);
    FourCells(cells, widths);
  }

  lemma {:induction false} FourCells(cells: seq<string>, widths: seq<nat>)
    requires |cells| == 4 && Fits(cells, widths)
    ensures PaddedCells(cells, widths) == PaddedCell(cells[0], widths[0]) + (PaddedCell(cells[1], widths[1])
      + (PaddedCell(cells[2], widths[2]) + PaddedCell(cells[3], widths[3])))
  {
    hide PaddedCell;
    var c1, w1, c2, w2, c3, w3 := cells[1..], widths[1..], cells[2..], widths[2..], cells[3..], widths[3..];
    assert c1[1..] == c2 && w1[1..] == w2 && c2[1..] == c3 && w2[1..] == w3 && c3[1..] == [] && w3[1..] == [];
    assert PaddedCells(c3, w3) == PaddedCell(cells[3], widths[3]) + PaddedCells([], []);
    assert PaddedCells(c2, w2) == PaddedCell(cells[2], widths[2]) + PaddedCells(c3, w3);
    assert PaddedCells(c1, w1) == PaddedCell(cells[1], widths[1]) + PaddedCells(c2, w2);
  }

  lemma {:induction false} PadOf(cell: string, width: nat, padded: string)
    requires PaddedTo(cell, width, padded)
    ensures PaddedCell(cell, width) == " " + padded + " |"
  {
    assert padded == cell + Repeat(' ', width - |cell|);
  }

  const RULE: string := "|" + (("-----|" + ("----|" + ("--------------|" + "--------------|"))) + "\n")

  lemma {:induction false} RuleOf(widths: seq<nat>)
    requires widths == [3, 2, 12, 12]
    ensures RuleLine(widths) == RULE
  {
    hide Repeat;
    RuleStep(widths);
    RuleStep(widths[1..]);
    RuleStep(widths[1..][1..]);
    RuleStep(widths[1..][1..][1..]);
    assert widths[1..][1..][1..][1..] == [] && Rules([]) == [];
    Dashes();
  }

  lemma {:induction false} RuleStep(widths: seq<nat>)
    requires widths != []
    ensures Rules(widths) == "-" + (Repeat('-', widths[0]) + "-|") + Rules(widths[1..])
  {
  }

  lemma {:induction false} Dashes()
    ensures "-" + (Repeat('-', 3) + "-|") == "-----|" && "-" + (Repeat('-', 2) + "-|") == "----|"
    ensures "-" + (Repeat('-', 12) + "-|") == "--------------|"
  {
  }
}
