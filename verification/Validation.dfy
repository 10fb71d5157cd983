/** The type checks ADD and UP run on parsed values, against the types the columns declare. */
module Validation {
  import opened Values
  import opened Text
  import opened Printer
  import opened Parser
  import opened Tables

  // ---- What the parser can produce ----

  /**
   * Values in range, strings of limited length, arrays of limited length and one type tag.
   * A slot the value loop never reached holds the null string.
   */
  predicate FromParser(d: Data) {
    match d
    case IntV(i) => IsI32(i)
    case DoubleV(bits) => 0 <= bits < TWO_64
    case BoolV(_) => true
    case StrV(s) => |s| <= MAX_STRING_VALUE_LENGTH && '\0' !in s
    case NullStr => true
    case ArrayV(elems) =>
      |elems| <= MAX_ARRAY_LENGTH && forall i :: 0 <= i < |elems| ==> FromParser(elems[i]) && Tag(elems[i]) == Tag(elems[0])
    case AppendV(elem) => FromParser(elem)
  }

  /** Every number that could be read from the text fits: 32-bit integers, 64-bit patterns. */
  ghost predicate NumbersFit(s: string, strtod: Strtod) {
    forall p: nat :: p <= |s| ==>
      0 <= strtod(s, p).0 < TWO_64 && (ParseInt(s, p).Some? ==> IsI32(ParseInt(s, p).value.0))
  }

  lemma {:induction false} BodyNulFree(s: string, p: nat)
    requires p <= |s| && '\0' !in s
    ensures StringBody(s, p).Some? ==> '\0' !in StringBody(s, p).value.0
    decreases |s| - p
  {
    if p < |s| && s[p] != '\"' {
      var escaped := s[p] == '\\' && p + 1 < |s|;
      BodyNulFree(s, if escaped then p + 2 else p + 1);
      assert s[p] != '\0' && (escaped ==> s[p + 1] != '\0');
    }
  }

  lemma {:induction false} StringNulFree(s: string, p: nat)
    requires p <= |s| && '\0' !in s
    ensures ParseString(s, p).Some? ==> '\0' !in ParseString(s, p).value.0
  {
    if At(s, p) == '\"' {
      BodyNulFree(s, p + 1);
    }
  }

  lemma {:induction false} NumberFits(s: string, p: nat, strtod: Strtod)
    requires p < |s| && NumbersFit(s, strtod)
    ensures ParseNumber(s, p, strtod).Ok? ==> FromParser(ParseNumber(s, p, strtod).value)
  {
    hide LooksDouble, ParseInt;
  }

  lemma {:induction false} ParsedValue(s: string, p: nat, strtod: Strtod)
    requires p <= |s| && '\0' !in s && NumbersFit(s, strtod)
    ensures ParseValue(s, p, strtod).Ok? ==> FromParser(ParseValue(s, p, strtod).value)
    decreases |s| - p, 1
  {
    hide NumbersFit, FromParser, ParseValueAt;
    ParsedValueAt(s, SkipBlanks(s, p), strtod);
  }

  lemma {:induction false} ParsedValueAt(s: string, p: nat, strtod: Strtod)
    requires p <= |s| && '\0' !in s && NumbersFit(s, strtod)
    ensures ParseValueAt(s, p, strtod).Ok? ==> FromParser(ParseValueAt(s, p, strtod).value)
    decreases |s| - p, 0
  {
    hide NumbersFit, ParseNumber, ParseString, ParseValue, ParseElements, SkipBlanks, WordAt, EndsWord;
    StringNulFree(s, p);
    if p < |s| {
      NumberFits(s, p, strtod);
    }
    if At(s, p) == '[' {
      var q := SkipBlanks(s, p + 1);
      if q + 4 <= |s| {
        ParsedValue(s, q + 4, strtod);
      }
      ParsedElements(s, q, strtod, []);
    }
  }

  lemma {:induction false} ParsedElements(s: string, p: nat, strtod: Strtod, acc: seq<Data>)
    requires p <= |s| && '\0' !in s && NumbersFit(s, strtod) && FromParser(ArrayV(acc))
    ensures ParseElements(s, p, strtod, acc).Ok? ==> FromParser(ParseElements(s, p, strtod, acc).value)
    decreases |s| - p, 2
  {
    hide NumbersFit, ParseValue, SkipBlanks, Tag;
    if |acc| < MAX_ARRAY_LENGTH {
      ParsedValue(s, p, strtod);
      var r := ParseValue(s, p, strtod);
      if r.Ok? && (acc == [] || Tag(acc[0]) == Tag(r.value)) {
        var more := acc + [r.value];
        assert forall i :: 0 <= i < |more| ==> FromParser(more[i]) && Tag(more[i]) == Tag(more[0]);
        var q := SkipBlanks(s, r.pos);
        if At(s, q) == ',' {
          ParsedElements(s, q + 1, strtod, more);
        }
      }
    }
  }

  predicate ItemFromParser(item: Item) {
    item.Ignored? || FromParser(item.d)
  }

  ghost predicate AllFromParser(items: seq<Item>) {
    forall i :: 0 <= i < |items| ==> ItemFromParser(items[i])
  }

  lemma {:induction false} ParsedItem(s: string, p: nat, marks: bool, strtod: Strtod)
    requires p <= |s| && '\0' !in s && NumbersFit(s, strtod)
    ensures ParseItem(s, p, marks, strtod).OkItem? ==> ItemFromParser(ParseItem(s, p, marks, strtod).item)
  {
    hide NumbersFit, FromParser, ParseValue;
    ParsedValue(s, SkipBlanks(s, p), strtod);
  }

  lemma {:induction false} ParsedItems(s: string, p: nat, left: nat, marks: bool, strtod: Strtod, acc: seq<Item>)
    requires p <= |s| && '\0' !in s && NumbersFit(s, strtod) && AllFromParser(acc)
    ensures ParseItems(s, p, left, marks, strtod, acc).Success? ==>
      AllFromParser(ParseItems(s, p, left, marks, strtod, acc).value)
    decreases left
  {
    hide NumbersFit, FromParser, ParseItem, SkipBlanks;
    if left > 0 {
      var r := ParseItem(s, SkipBlanks(s, p), marks, strtod);
      ParsedItem(s, SkipBlanks(s, p), marks, strtod);
      if r.OkItem? {
        var q := SkipBlanks(s, r.pos);
        DefaultFromParser();
        if At(s, q) == ',' {
          ParsedItems(s, q + 1, left - 1, marks, strtod, acc + [r.item]);
        }
      }
    }
  }

  lemma {:induction false} DefaultFromParser()
    ensures ItemFromParser(DEFAULT_ITEM)
  {
  }

  /** Every value list the parser accepts, miscounted or not, holds only such values. */
  lemma {:induction false} TokenizedValues(s: string, marks: bool, strtod: Strtod)
    requires '\0' !in s && NumbersFit(s, strtod)
    ensures TokenizeItems(s, marks, strtod).Success? ==> AllFromParser(TokenizeItems(s, marks, strtod).value)
  {
    hide NumbersFit, ParseItems, CountValues, FromParser;
    ParsedItems(s, 0, CountValues(s), marks, strtod, []);
  }

  // ---- The checks ----

  /** The tags a column accepts: -4 passes for every array column. */
  predicate TagFits(tag: int, ty: FieldType) {
    match ty
    case Scalar(KInt) => tag == -2
    case Scalar(KDouble) => tag == -1
    case Scalar(KBool) => tag == -3
    case Scalar(KString) => tag >= 0
    case Array(KInt) => tag == -4
    case Array(KDouble) => tag == -5 || tag == -4
    case Array(KBool) => tag == -6 || tag == -4
    case Array(KString) => tag == -7 || tag == -4
  }

  /** ADD's check of one value: 0, -1 for the wrong type, -2 for a limit. */
  function CheckAdded(d: Data, ty: FieldType): int {
    if !TagFits(Tag(d), ty) then -1
    else if ty == Scalar(KString) && d.StrV? && |d.s| > MAX_STRING_VALUE_LENGTH then -2
    else if ty.Array? && |Elements(d)| > MAX_ARRAY_LENGTH then -2
    else 0
  }

  function CheckAddedValues(fields: seq<Field>, values: seq<Data>, i: nat): int
    requires |values| == |fields| - 1 && i <= |values|
    decreases |values| - i
  {
    if i == |values| then 0
    else if CheckAdded(values[i], fields[i + 1].ty) != 0 then CheckAdded(values[i], fields[i + 1].ty)
    else CheckAddedValues(fields, values, i + 1)
  }

  /** UP's check of one value: appends are also accepted by their element's tag, array lengths are not checked. */
  function CheckUpdate(d: Data, ty: FieldType): int {
    if !(TagFits(Tag(d), ty) || (ty.Array? && d.AppendV? && TagFits(Tag(d.elem), Scalar(ty.kind)))) then -1
    else if ty == Scalar(KString) && d.StrV? && |d.s| > MAX_STRING_VALUE_LENGTH then -2
    else 0
  }

  function CheckUpdates(fields: seq<Field>, values: seq<Data>, ignore: seq<bool>, i: nat): int
    requires |values| == |fields| - 1 && |ignore| == |values| && i <= |values|
    decreases |values| - i
  {
    if i == |values| then 0
    else if !ignore[i] && CheckUpdate(values[i], fields[i + 1].ty) != 0 then CheckUpdate(values[i], fields[i + 1].ty)
    else CheckUpdates(fields, values, ignore, i + 1)
  }

  // ---- What the checks let through ----

  /** The value whose tag decides an array literal's tag, if it has one. */
  function Leader(d: Data): Option<Data> {
    if d.ArrayV? && d.elems != [] then Some(d.elems[0]) else if d.AppendV? then Some(d.elem) else None
  }

  /** An array literal the tags cannot tell from the column's type: ints in another array column, arrays in a string array. */
  predicate Mislabelled(d: Data, ty: FieldType) {
    && ty.Array? && Leader(d).Some?
    && ((ty.kind != KInt && Leader(d).value.IntV?)
        || (ty.kind == KString && (Leader(d).value.ArrayV? || Leader(d).value.AppendV?)))
  }

  lemma {:induction false} ScalarTags(d: Data)
    requires FromParser(d)
    ensures Tag(d) == -2 <==> d.IntV?
    ensures Tag(d) == -1 <==> d.DoubleV?
    ensures Tag(d) == -3 <==> d.BoolV?
    ensures Tag(d) >= 0 <==> d.StrV? || d.NullStr?
    ensures d.ArrayV? || d.AppendV? <==> Tag(d) <= -4
  {
  }

  lemma {:induction false} ElementsFollow(elems: seq<Data>, k: Kind)
    requires elems != [] && FromParser(ArrayV(elems))
    ensures (forall i :: 0 <= i < |elems| ==> HasKind(elems[i], k)) <==> HasKind(elems[0], k)
  {
    hide Tag;
    forall i | 0 <= i < |elems|
      ensures HasKind(elems[i], k) <==> HasKind(elems[0], k)
    {
      assert FromParser(elems[i]) && FromParser(elems[0]);
      ScalarTags(elems[i]);
      ScalarTags(elems[0]);
    }
  }

  /** For a parsed value, fitting a column is a matter of its leader's tag. */
  lemma {:induction false} TypedByLeader(d: Data, ty: FieldType)
    requires FromParser(d)
    ensures ty.Array? && Leader(d).Some? ==> (Typed(d, ty) <==> HasKind(Leader(d).value, ty.kind))
    ensures ty.Array? && Leader(d).None? ==> (Typed(d, ty) <==> d == ArrayV([]))
  {
    hide Tag, HasKind;
    if d.ArrayV? && d.elems != [] && ty.Array? {
      ElementsFollow(d.elems, ty.kind);
    }
  }

  lemma {:induction false} TagByLeader(d: Data)
    requires FromParser(d) && Leader(d).Some?
    ensures Tag(d) == ArrayTag(Tag(Leader(d).value)) && FromParser(Leader(d).value)
  {
  }

  /**
   * Both checks accept a parsed value exactly when it fits its column or is one of the
   * mislabelled array literals, which never fit.
   */
  lemma {:induction false} AcceptedIff(d: Data, ty: FieldType)
    requires FromParser(d)
    ensures CheckAdded(d, ty) == 0 <==> Typed(d, ty) || Mislabelled(d, ty)
    ensures CheckUpdate(d, ty) == 0 <==> Typed(d, ty) || Mislabelled(d, ty)
    ensures Mislabelled(d, ty) ==> !Typed(d, ty)
  {
    hide Tag, Typed;
    if ty.Array? {
      TypedByLeader(d, ty);
      if Leader(d).Some? {
        TagByLeader(d);
        ScalarTags(Leader(d).value);
        LengthFits(d);
      } else {
        EmptyTag(d);
      }
    } else {
      ScalarTyped(d, ty.kind);
      ScalarTags(d);
    }
  }

  lemma {:induction false} LengthFits(d: Data)
    requires FromParser(d)
    ensures |Elements(d)| <= MAX_ARRAY_LENGTH
  {
  }

  lemma {:induction false} EmptyTag(d: Data)
    requires FromParser(d) && Leader(d).None?
    ensures Tag(d) <= -4 <==> d == ArrayV([])
    ensures d == ArrayV([]) ==> Tag(d) == -4
  {
    ScalarTags(d);
  }

  lemma {:induction false} ScalarTyped(d: Data, k: Kind)
    ensures Typed(d, Scalar(k)) == HasKind(d, k)
  {
  }

  /** An ADD whose values pass the check and are not mislabelled gives every column its type. */
  lemma {:induction false} AddedValuesTyped(fields: seq<Field>, values: seq<Data>, i: nat)
    requires |values| == |fields| - 1 && i <= |values| && CheckAddedValues(fields, values, i) == 0
    requires forall j :: 0 <= j < |values| ==> FromParser(values[j]) && !Mislabelled(values[j], fields[j + 1].ty)
    ensures forall j :: i <= j < |values| ==> Typed(values[j], fields[j + 1].ty)
    decreases |values| - i
  {
    hide FromParser, Mislabelled, Typed, CheckAdded;
    if i < |values| {
      AcceptedIff(values[i], fields[i + 1].ty);
      AddedValuesTyped(fields, values, i + 1);
    }
  }

  lemma {:induction false} UpdatesTyped(fields: seq<Field>, values: seq<Data>, ignore: seq<bool>, i: nat)
    requires |values| == |fields| - 1 && |ignore| == |values| && i <= |values|
    requires CheckUpdates(fields, values, ignore, i) == 0
    requires forall j :: 0 <= j < |values| && !ignore[j] ==> FromParser(values[j]) && !Mislabelled(values[j], fields[j + 1].ty)
    ensures forall j :: i <= j < |values| && !ignore[j] ==> Typed(values[j], fields[j + 1].ty)
    decreases |values| - i
  {
    hide FromParser, Mislabelled, Typed, CheckUpdate;
    if i < |values| {
      if !ignore[i] {
        AcceptedIff(values[i], fields[i + 1].ty);
      }
      UpdatesTyped(fields, values, ignore, i + 1);
    }
  }

  /** The simplest mislabelled value: an int array passes both checks for a string array column. */
  lemma {:induction false} IntArrayPassesForStrings()
    ensures var d := ArrayV([IntV(1)]);
            && CheckAdded(d, Array(KString)) == 0 && CheckUpdate(d, Array(KString)) == 0 && !Typed(d, Array(KString))
  {
    var d := ArrayV([IntV(1)]);
    assert Mislabelled(d, Array(KString));
    AcceptedIff(d, Array(KString));
  }
}
