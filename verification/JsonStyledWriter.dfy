/** The indenting writer. Where the spaces and line breaks go is a function of
  * the value and of its depth alone, and they change no token. */
module JsonStyledWriter {
  import opened JsonLexing
  import opened Lists
  import opened JsonStrings
  import opened JsonNumbers
  import opened JsonValues
  import opened JsonFastWriter

  function Size(v: Value): nat {
    match v
    case Arr(items) => |items|
    case Obj(members) => |members|
    case _ => 0
  }

  /** The text of a value with nothing inside it. */
  function Flat(v: Value): string
    requires Size(v) == 0
  {
    match v
    case Null => "null"
    case Bool(b) => if b then "true" else "false"
    case Int(i) => Decimal(i)
    case UInt(u) => Decimal(u)
    case Real(text) => text
    case Str(s) => Quote(s)
    case Arr(_) => "[]"
    case Obj(_) => "{}"
  }

  lemma FlatRenders(v: Value)
    requires Size(v) == 0
    ensures Renders(Flat(v), Toks(v), false)
  {
    ValueRenders(v, ":");
    FlatIsJoined(v);
  }

  lemma FlatIsJoined(v: Value)
    requires Size(v) == 0
    ensures Flat(v) == Joined(Toks(v), ":")
  {
    match v {
      case Arr(_) => EmptyPair(Lexeme(ArrayBegin, "["), Lexeme(ArrayEnd, "]"));
      case Obj(_) => EmptyPair(Lexeme(ObjectBegin, "{"), Lexeme(ObjectEnd, "}"));
      case _ => JoinedOne(Toks(v)[0], ":");
    }
  }

  lemma EmptyPair(open: Lexeme, close: Lexeme)
    requires open.kind != MemberSeparator && close.kind != MemberSeparator
    ensures Joined([open] + [] + [close], ":") == open.text + close.text
  {
    JoinedOne(open, ":");
    var _ := Extend([open], [close], ":");
    assert [open] + [] + [close] == [open] + [close];
  }

  /** No element has anything inside it. */
  predicate IsFlat(v: Value)
    requires v.Arr?
  {
    forall i :: 0 <= i < |v.items| ==> Size(v.items[i]) == 0
  }

  /** The texts of the first elements. */
  ghost predicate AreTexts(texts: seq<string>, v: Value)
    requires v.Arr?
  {
    && |texts| <= |v.items|
    && forall i :: 0 <= i < |texts| ==> Size(v.items[i]) == 0 && texts[i] == Flat(v.items[i])
  }

  lemma OneMoreText(texts: seq<string>, v: Value)
    requires v.Arr? && AreTexts(texts, v) && |texts| < |v.items| && Size(v.items[|texts|]) == 0
    ensures AreTexts(texts + [Flat(v.items[|texts|])], v)
  {
  }

  /** The width of the first `k` elements' texts. */
  function Width(v: Value, k: nat): nat
    requires v.Arr? && k <= |v.items| && IsFlat(v)
  {
    if k == 0 then 0 else Width(v, k - 1) + |Flat(v.items[k - 1])|
  }

  lemma WidthGrows(v: Value)
    requires v.Arr? && IsFlat(v)
    ensures Width(v, 0) == 0
    ensures forall k :: 0 <= k < |v.items| ==> Width(v, k + 1) == Width(v, k) + |Flat(v.items[k])|
  {
  }

  /** Whether an array is too long for one line of 74 columns. */
  predicate IsMultiline(v: Value)
    requires v.Arr? && v.items != []
  {
    || |v.items| * 3 >= 74
    || !IsFlat(v)
    || 4 + (|v.items| - 1) * 2 + Width(v, |v.items|) >= 74
  }

  // ---------------------------------------------------------------- the layout

  function Blank(d: nat): string {
    seq(d, _ => ' ')
  }

  function NewLine(d: nat): string {
    "\n" + Blank(d)
  }

  /** How a value is written at a depth of `d` columns. */
  function Layout(v: Value, d: nat): string
    decreases v, 1, 0
  {
    match v
    case Arr(items) =>
      if items == [] then "[]"
      else if IsMultiline(v) then "[" + ItemLines(v, |items|, d + 3) + NewLine(d) + "]"
      else "[ " + FlatLine(v, |items|) + " ]"
    case Obj(members) =>
      if members == [] then "{}" else "{" + MemberLines(v, |members|, d + 3) + NewLine(d) + "}"
    case _ => Flat(v)
  }

  /** The first `k` elements, one a line. */
  function ItemLines(v: Value, k: nat, d: nat): string
    requires v.Arr? && k <= |v.items|
    decreases v, 0, k
  {
    if k == 0 then ""
    else ItemLines(v, k - 1, d) + (if k > 1 then "," else "") + NewLine(d) + Layout(v.items[k - 1], d)
  }

  /** The first `k` elements, on one line. */
  function FlatLine(v: Value, k: nat): string
    requires v.Arr? && k <= |v.items| && IsFlat(v)
  {
    if k == 0 then "" else FlatLine(v, k - 1) + (if k > 1 then ", " else "") + Flat(v.items[k - 1])
  }

  /** The first `k` members, one a line. */
  function MemberLines(v: Value, k: nat, d: nat): string
    requires v.Obj? && k <= |v.members|
    decreases v, 0, k
  {
    if k == 0 then ""
    else MemberLines(v, k - 1, d) + (if k > 1 then "," else "") + NewLine(d) + MemberText(v.members[k - 1], d)
  }

  function MemberText(m: Member, d: nat): string
    decreases m, 2, 0
  {
    Quote(m.name) + " : " + Layout(m.value, d)
  }

  lemma FlatLayout(v: Value, d: nat)
    requires Size(v) == 0
    ensures Layout(v, d) == Flat(v)
  {}

  /** What has been written when `k` elements are done, with the comma after them. */
  function OpenItems(v: Value, k: nat, d: nat): string
    requires v.Arr? && k <= |v.items|
  {
    "[" + ItemLines(v, k, d) + if 0 < k < |v.items| then "," else ""
  }

  function OpenMembers(v: Value, k: nat, d: nat): string
    requires v.Obj? && k <= |v.members|
  {
    "{" + MemberLines(v, k, d) + if 0 < k < |v.members| then "," else ""
  }

  function OpenFlat(v: Value, k: nat): string
    requires v.Arr? && k <= |v.items| && IsFlat(v)
  {
    "[ " + FlatLine(v, k)
  }

  lemma ItemsGrow(v: Value, k: nat, d: nat)
    requires v.Arr? && k < |v.items|
    ensures OpenItems(v, 0, d) == "["
    ensures OpenItems(v, k + 1, d)
      == OpenItems(v, k, d) + (NewLine(d) + Layout(v.items[k], d)) + if k + 1 < |v.items| then "," else ""
  {
    var done, comma, line, x := ItemLines(v, k, d), if k > 0 then "," else "", NewLine(d), Layout(v.items[k], d);
    assert ItemLines(v, k + 1, d) == done + comma + line + x && ItemLines(v, 0, d) == "";
    hide Layout, ItemLines, NewLine;
    Regroup<char>(done + comma, line, x);
    Regroup<char>("[", done + comma, line + x);
    Regroup<char>("[", done, comma);
    Trivial<char>("[");
  }

  lemma MembersGrow(v: Value, k: nat, d: nat)
    requires v.Obj? && k < |v.members|
    ensures OpenMembers(v, 0, d) == "{"
    ensures OpenMembers(v, k + 1, d)
      == OpenMembers(v, k, d) + (NewLine(d) + MemberText(v.members[k], d)) + if k + 1 < |v.members| then "," else ""
  {
    var done, comma, line, x := MemberLines(v, k, d), if k > 0 then "," else "", NewLine(d), MemberText(v.members[k], d);
    assert MemberLines(v, k + 1, d) == done + comma + line + x && MemberLines(v, 0, d) == "";
    hide MemberText, MemberLines, NewLine;
    Regroup<char>(done + comma, line, x);
    Regroup<char>("{", done + comma, line + x);
    Regroup<char>("{", done, comma);
    Trivial<char>("{");
  }

  lemma FlatGrows(v: Value, k: nat)
    requires v.Arr? && k < |v.items| && IsFlat(v)
    ensures OpenFlat(v, 0) == "[ "
    ensures OpenFlat(v, k + 1) == OpenFlat(v, k) + ((if k > 0 then ", " else "") + Flat(v.items[k]))
  {
    var done, comma, x := FlatLine(v, k), if k > 0 then ", " else "", Flat(v.items[k]);
    assert FlatLine(v, k + 1) == done + comma + x && FlatLine(v, 0) == "";
    hide Flat, FlatLine;
    Regroup<char>(done, comma, x);
    Regroup<char>("[ ", done, comma + x);
    Trivial<char>("[ ");
  }

  /** The closed forms, from what the loops have written. */
  lemma LayoutCloses(v: Value, d: nat)
    ensures v.Arr? && v.items != [] && IsMultiline(v) ==> Layout(v, d) == OpenItems(v, |v.items|, d + 3) + (NewLine(d) + "]")
    ensures v.Arr? && v.items != [] && !IsMultiline(v) ==> IsFlat(v) && Layout(v, d) == OpenFlat(v, |v.items|) + " ]"
    ensures v.Obj? && v.members != [] ==> Layout(v, d) == OpenMembers(v, |v.members|, d + 3) + (NewLine(d) + "}")
  {
    hide ItemLines, MemberLines, FlatLine, NewLine;
    if v.Arr? && v.items != [] && IsMultiline(v) {
      Trivial<char>("[" + ItemLines(v, |v.items|, d + 3));
      Regroup<char>("[" + ItemLines(v, |v.items|, d + 3), NewLine(d), "]");
    } else if v.Obj? && v.members != [] {
      Trivial<char>("{" + MemberLines(v, |v.members|, d + 3));
      Regroup<char>("{" + MemberLines(v, |v.members|, d + 3), NewLine(d), "}");
    }
  }

  // ---------------------------------------------------------------- the layout reads as the tokens

  lemma BlanksRender(d: nat)
    ensures Renders(NewLine(d), [], true)
  {
    SpacesRender(NewLine(d));
  }

  /** A line break and some text, with or without a comma before. */
  lemma LineRenders(comma: bool, d: nat, body: string, toks: seq<Lexeme>)
    requires Renders(body, toks, false)
    ensures Renders((if comma then "," else "") + (NewLine(d) + body), (if comma then [COMMA] else []) + toks, false)
    ensures StartsApart((if comma then "," else "") + (NewLine(d) + body))
  {
    BlanksRender(d);
    PunctuationRenders(ArraySeparator, ",");
    assert NewLine(d)[0] == '\n';
    hide Renders, Blank;
    RendersConcat(NewLine(d), [], true, body, toks, false);
    Trivial<Lexeme>(toks);
    if comma {
      RendersConcat(",", [COMMA], true, NewLine(d) + body, toks, false);
    } else {
      Trivial<char>(NewLine(d) + body);
    }
  }

  /** One more piece of text that cannot continue a number. */
  lemma JoinPieces(a: string, ta: seq<Lexeme>, ca: bool, b: string, tb: seq<Lexeme>)
    requires Renders(a, ta, ca) && Renders(b, tb, false) && (ca || StartsApart(b))
    ensures Renders(a + b, ta + tb, false)
  {
    hide Renders;
    RendersConcat(a, ta, ca, b, tb, false);
  }

  lemma CloserRenders(d: nat, kind: Kind, text: string)
    requires IsPunctuation(kind, text)
    ensures Renders(NewLine(d) + text, [Lexeme(kind, text)], false) && StartsApart(NewLine(d) + text)
  {
    PunctuationRenders(kind, text);
    hide Renders;
    Weaken(text, [Lexeme(kind, text)]);
    LineRenders(false, d, text, [Lexeme(kind, text)]);
    Trivial<char>(NewLine(d) + text);
    Trivial<Lexeme>([Lexeme(kind, text)]);
  }

  /** The written form of a value is cut back into exactly the value's tokens. */
  lemma {:induction false} LayoutRenders(v: Value, d: nat)
    ensures Renders(Layout(v, d), Toks(v), false)
    decreases v, 1, 0
  {
    if Size(v) == 0 {
      FlatLayout(v, d);
      FlatRenders(v);
    } else if v.Obj? {
      MemberLinesRender(v, |v.members|, d + 3);
      ClosedObject(v, d);
    } else if IsMultiline(v) {
      ItemLinesRender(v, |v.items|, d + 3);
      ClosedLines(v, d);
    } else {
      FlatLineRenders(v, |v.items|);
      ClosedFlat(v, d);
    }
  }

  lemma ClosedObject(v: Value, d: nat)
    requires v.Obj? && v.members != [] && Renders("{" + MemberLines(v, |v.members|, d + 3), OpenObject(v, |v.members|), false)
    ensures Renders(Layout(v, d), Toks(v), false)
  {
    LayoutCloses(v, d);
    hide Renders, Layout, Toks, NewLine, MemberLines;
    CloserRenders(d, ObjectEnd, "}");
    ObjectToks(v);
    Trivial<char>("{" + MemberLines(v, |v.members|, d + 3));
    JoinPieces(OpenMembers(v, |v.members|, d + 3), OpenObject(v, |v.members|), false, NewLine(d) + "}", [Lexeme(ObjectEnd, "}")]);
  }

  lemma ClosedLines(v: Value, d: nat)
    requires v.Arr? && v.items != [] && IsMultiline(v)
    requires Renders("[" + ItemLines(v, |v.items|, d + 3), OpenArray(v, |v.items|), false)
    ensures Renders(Layout(v, d), Toks(v), false)
  {
    LayoutCloses(v, d);
    hide Renders, Layout, Toks, NewLine, ItemLines;
    CloserRenders(d, ArrayEnd, "]");
    ArrayToks(v);
    Trivial<char>("[" + ItemLines(v, |v.items|, d + 3));
    JoinPieces(OpenItems(v, |v.items|, d + 3), OpenArray(v, |v.items|), false, NewLine(d) + "]", [Lexeme(ArrayEnd, "]")]);
  }

  lemma ClosedFlat(v: Value, d: nat)
    requires v.Arr? && v.items != [] && !IsMultiline(v) && Renders(OpenFlat(v, |v.items|), OpenArray(v, |v.items|), false)
    ensures Renders(Layout(v, d), Toks(v), false)
  {
    LayoutCloses(v, d);
    hide Renders, Layout, Toks, OpenFlat;
    SpaceAndRender(ArrayEnd, "]");
    assert " " + "]" == " ]";
    ArrayToks(v);
    JoinPieces(OpenFlat(v, |v.items|), OpenArray(v, |v.items|), false, " ]", [Lexeme(ArrayEnd, "]")]);
  }

  lemma ArrayToks(v: Value)
    requires v.Arr?
    ensures Toks(v) == OpenArray(v, |v.items|) + [Lexeme(ArrayEnd, "]")]
  {
    AllItems(v);
  }

  lemma ObjectToks(v: Value)
    requires v.Obj?
    ensures Toks(v) == OpenObject(v, |v.members|) + [Lexeme(ObjectEnd, "}")]
  {
    AllMembers(v);
  }

  lemma SpaceAndRender(kind: Kind, text: string)
    requires IsPunctuation(kind, text)
    ensures Renders(" " + text, [Lexeme(kind, text)], false) && StartsApart(" " + text)
  {
    SpacesRender(" ");
    PunctuationRenders(kind, text);
    hide Renders;
    Weaken(text, [Lexeme(kind, text)]);
    RendersConcat(" ", [], true, text, [Lexeme(kind, text)], false);
    Trivial<Lexeme>([Lexeme(kind, text)]);
  }

  lemma OpenerRenders(kind: Kind, text: string)
    requires IsPunctuation(kind, text)
    ensures Renders(text + " ", [Lexeme(kind, text)], true) && Renders(text, [Lexeme(kind, text)], true)
  {
    SpacesRender(" ");
    PunctuationRenders(kind, text);
    hide Renders;
    RendersConcat(text, [Lexeme(kind, text)], true, " ", [], true);
    Trivial<Lexeme>([Lexeme(kind, text)]);
  }

  lemma ArrayGrowsBy(v: Value, k: nat)
    requires v.Arr? && k < |v.items|
    ensures OpenArray(v, 0) == [Lexeme(ArrayBegin, "[")]
    ensures OpenArray(v, k + 1) == OpenArray(v, k) + ((if k > 0 then [COMMA] else []) + Toks(v.items[k]))
  {
    var open, done, comma, x := [Lexeme(ArrayBegin, "[")], ItemsUpTo(v, k), if k > 0 then [COMMA] else [], Toks(v.items[k]);
    assert ItemsUpTo(v, k + 1) == done + comma + x && ItemsUpTo(v, 0) == [];
    hide Toks, ItemsUpTo;
    Regroup<Lexeme>(done, comma, x);
    Regroup<Lexeme>(open, done, comma + x);
    Trivial<Lexeme>(open);
  }

  lemma ObjectGrowsBy(v: Value, k: nat)
    requires v.Obj? && k < |v.members|
    ensures OpenObject(v, 0) == [Lexeme(ObjectBegin, "{")]
    ensures OpenObject(v, k + 1) == OpenObject(v, k) + ((if k > 0 then [COMMA] else []) + MemberToks(v.members[k]))
  {
    var open, done, comma, x :=
      [Lexeme(ObjectBegin, "{")], MembersUpTo(v, k), if k > 0 then [COMMA] else [], MemberToks(v.members[k]);
    assert MembersUpTo(v, k + 1) == done + comma + x && MembersUpTo(v, 0) == [];
    hide MemberToks, MembersUpTo;
    Regroup<Lexeme>(done, comma, x);
    Regroup<Lexeme>(open, done, comma + x);
    Trivial<Lexeme>(open);
  }

  lemma {:induction false} ItemLinesRender(v: Value, k: nat, d: nat)
    requires v.Arr? && k <= |v.items|
    ensures Renders("[" + ItemLines(v, k, d), OpenArray(v, k), k == 0)
    decreases v, 0, k
  {
    if k == 0 {
      OpenerRenders(ArrayBegin, "[");
      Trivial<char>("[");
      Trivial<Lexeme>([Lexeme(ArrayBegin, "[")]);
    } else {
      ItemLinesRender(v, k - 1, d);
      LayoutRenders(v.items[k - 1], d);
      var done, comma, line, x := ItemLines(v, k - 1, d), if k > 1 then "," else "", NewLine(d), Layout(v.items[k - 1], d);
      assert ItemLines(v, k, d) == done + comma + line + x;
      ArrayGrowsBy(v, k - 1);
      hide Renders, Layout, ItemLines, Toks, NewLine, OpenArray;
      LineRenders(k > 1, d, x, Toks(v.items[k - 1]));
      JoinPieces("[" + done, OpenArray(v, k - 1), k == 1, comma + (line + x), (if k > 1 then [COMMA] else []) + Toks(v.items[k - 1]));
      Pieces("[", done, comma, line, x);
    }
  }

  lemma Pieces(open: string, done: string, comma: string, line: string, x: string)
    ensures (open + done) + (comma + (line + x)) == open + (done + comma + line + x)
  {
    Regroup<char>(open, done, comma + (line + x));
    Regroup<char>(done, comma, line + x);
    Regroup<char>(done + comma, line, x);
  }

  lemma {:induction false} MemberLinesRender(v: Value, k: nat, d: nat)
    requires v.Obj? && k <= |v.members|
    ensures Renders("{" + MemberLines(v, k, d), OpenObject(v, k), k == 0)
    decreases v, 0, k
  {
    if k == 0 {
      OpenerRenders(ObjectBegin, "{");
      Trivial<char>("{");
      Trivial<Lexeme>([Lexeme(ObjectBegin, "{")]);
    } else {
      MemberLinesRender(v, k - 1, d);
      LayoutRenders(v.members[k - 1].value, d);
      MemberRenders(v.members[k - 1], d);
      var done, comma, line, x := MemberLines(v, k - 1, d), if k > 1 then "," else "", NewLine(d), MemberText(v.members[k - 1], d);
      assert MemberLines(v, k, d) == done + comma + line + x;
      ObjectGrowsBy(v, k - 1);
      hide Renders, MemberText, MemberLines, MemberToks, NewLine, OpenObject;
      LineRenders(k > 1, d, x, MemberToks(v.members[k - 1]));
      JoinPieces("{" + done, OpenObject(v, k - 1), k == 1, comma + (line + x),
                 (if k > 1 then [COMMA] else []) + MemberToks(v.members[k - 1]));
      Pieces("{", done, comma, line, x);
    }
  }

  lemma MemberRenders(m: Member, d: nat)
    requires Renders(Layout(m.value, d), Toks(m.value), false)
    ensures Renders(MemberText(m, d), MemberToks(m), false)
  {
    var name := Lexeme(StringToken, Quote(m.name));
    hide Renders, Layout, Toks, Quote;
    QuoteRenders(m.name);
    SpacedColonRenders();
    RendersConcat(Quote(m.name), [name], true, " : ", [COLON], true);
    RendersConcat(Quote(m.name) + " : ", [name] + [COLON], true, Layout(m.value, d), Toks(m.value), false);
    assert [name] + [COLON] == [name, COLON];
  }

  lemma SpacedColonRenders()
    ensures Renders(" : ", [COLON], true)
  {
    SpacesRender(" ");
    ColonRenders(": ");
    hide Renders;
    RendersConcat(" ", [], true, ": ", [COLON], true);
    assert " " + ": " == " : ";
    Trivial<Lexeme>([COLON]);
  }

  lemma {:induction false} FlatLineRenders(v: Value, k: nat)
    requires v.Arr? && k <= |v.items| && IsFlat(v)
    ensures Renders(OpenFlat(v, k), OpenArray(v, k), k == 0)
  {
    if k == 0 {
      OpenerRenders(ArrayBegin, "[");
      Trivial<char>("[ ");
      Trivial<Lexeme>([Lexeme(ArrayBegin, "[")]);
      assert "[" + " " == "[ ";
    } else {
      FlatLineRenders(v, k - 1);
      FlatRenders(v.items[k - 1]);
      FlatGrows(v, k - 1);
      ArrayGrowsBy(v, k - 1);
      CommaSpaceRenders();
      hide Renders, Flat, Toks, OpenArray, OpenFlat;
      var x, t := Flat(v.items[k - 1]), Toks(v.items[k - 1]);
      if k > 1 {
        RendersConcat(", ", [COMMA], true, x, t, false);
        assert (", " + x)[0] == ',';
        JoinPieces(OpenFlat(v, k - 1), OpenArray(v, k - 1), false, ", " + x, [COMMA] + t);
      } else {
        Trivial<char>(x);
        Trivial<Lexeme>(t);
        JoinPieces(OpenFlat(v, k - 1), OpenArray(v, k - 1), true, x, t);
      }
    }
  }

  lemma CommaSpaceRenders()
    ensures Renders(", ", [COMMA], true)
  {
    OpenerRenders(ArraySeparator, ",");
    assert "," + " " == ", ";
  }

  // ---------------------------------------------------------------- what a document ends in

  /** The text ends, and not in a space or a line break. */
  predicate Solid(text: string) {
    text != "" && text[|text| - 1] != ' ' && text[|text| - 1] != '\n'
  }

  lemma SolidEnd(a: string, b: string)
    requires Solid(b)
    ensures Solid(a + b)
  {}

  lemma SolidNumber(text: string)
    requires IsNumberText(text)
    ensures Solid(text)
  {
    assert IsNumberChar(text[|text| - 1]);
  }

  lemma SolidFlat(v: Value)
    requires Size(v) == 0
    ensures Solid(Flat(v))
  {
    match v {
      case Int(i) => SolidNumber(Decimal(i));
      case UInt(u) => SolidNumber(Decimal(u));
      case Real(text) => SolidNumber(text);
      case Str(s) => SolidEnd("\"" + Escaped(s), "\"");
      case _ =>
    }
  }

  lemma SolidLayout(v: Value, d: nat)
    ensures Solid(Layout(v, d))
  {
    if Size(v) == 0 {
      FlatLayout(v, d);
      SolidFlat(v);
    }
    hide ItemLines, MemberLines, FlatLine, NewLine, Flat;
  }

  /** What `writeIndent` adds to a document. */
  function Gap(document: string, d: nat): string {
    if document == "" then Blank(d)
    else if document[|document| - 1] == ' ' then ""
    else if document[|document| - 1] == '\n' then Blank(d)
    else NewLine(d)
  }

  // ---------------------------------------------------------------- the writer

  class StyledWriter {
    var childValues: seq<string>
    var document: string
    var indentString: string
    var addChildValues: bool
    const rightMargin: nat := 74
    const indentSize: nat := 3

    constructor ()
      ensures !addChildValues
    {
      childValues, document, indentString, addChildValues := [], "", "", false;
    }

    ghost predicate Valid()
      reads this
    {
      indentString == Blank(|indentString|)
    }

    /** A value can be written right here: the document is empty or ends in a space. */
    ghost predicate AtStart()
      reads this
    {
      if document == "" then indentString == "" else document[|document| - 1] == ' '
    }

    /** The document is the layout of the value, and reads as the value's tokens. */
    method Write(root: Value) returns (text: string)
      modifies this
      ensures text == document == Layout(root, 0) + "\n" && Lex(text, 0) == Toks(root)
    {
      document := "";
      addChildValues := false;
      indentString := "";
      WriteValue(root);
      Trivial<char>(Layout(root, 0));
      LayoutRenders(root, 0);
      DocumentLexes(document, "\n", Toks(root));
      document := document + "\n";
      return document;
    }

    /** Either the text of a small value goes to the cache, or the value is
      * written at the end of the document, laid out for the current depth. */
    method WriteValue(value: Value)
      requires Valid() && (if addChildValues then Size(value) == 0 else AtStart())
      modifies this`childValues, this`document, this`indentString, this`addChildValues
      ensures Valid() && indentString == old(indentString) && addChildValues == old(addChildValues)
      ensures addChildValues ==> document == old(document) && childValues == old(childValues) + [Flat(value)]
      ensures !addChildValues ==> document == old(document) + Layout(value, |indentString|)
      decreases value, 2
    {
      match value {
        case Null => PushValue("null");
        case Int(i) =>
          var text := SignedToString(i);
          PushValue(text);
        case UInt(u) =>
          var text := UnsignedToString(u);
          PushValue(text);
        case Real(text) => PushValue(text);
        case Str(s) =>
          var text := ValueToQuotedString(s);
          PushValue(text);
        case Bool(b) => PushValue(if b then "true" else "false");
        case Arr(_) => WriteArrayValue(value);
        case Obj(members) => if members == [] { PushValue("{}"); } else { WriteObject(value); }
      }
    }

    method PushValue(value: string)
      modifies this`childValues, this`document
      ensures addChildValues ==> document == old(document) && childValues == old(childValues) + [value]
      ensures !addChildValues ==> document == old(document) + value && childValues == old(childValues)
    {
      if addChildValues {
        childValues := childValues + [value];
      } else {
        document := document + value;
      }
    }

    /** Puts the next token on a new line, unless it already stands after a space. */
    method WriteIndent()
      requires Valid()
      modifies this`document
      ensures document == old(document) + Gap(old(document), |indentString|)
    {
      if document != "" {
        var last := document[|document| - 1];
        if last == ' ' {
          Trivial<char>(document);
          return;
        }
        if last != '\n' {
          Regroup<char>(document, "\n", indentString);
          document := document + "\n";
        }
      }
      document := document + indentString;
    }

    method WriteWithIndent(text: string)
      requires Valid()
      modifies this`document
      ensures document == old(document) + (Gap(old(document), |indentString|) + text)
    {
      WriteIndent();
      Regroup<char>(old(document), Gap(old(document), |indentString|), text);
      document := document + text;
    }

    method Indent()
      requires Valid()
      modifies this`indentString
      ensures Valid() && indentString == old(indentString) + "   " && |indentString| == |old(indentString)| + 3
    {
      indentString := indentString + "   ";
    }

    method Unindent()
      requires Valid() && |indentString| >= indentSize
      modifies this`indentString
      ensures Valid() && indentString == old(indentString)[..|old(indentString)| - indentSize]
    {
      indentString := indentString[..|indentString| - indentSize];
    }

    /** An opening bracket, and what follows goes deeper. */
    method Open(bracket: string)
      requires Valid() && !addChildValues && AtStart() && Solid(bracket)
      modifies this`document, this`indentString
      ensures Valid() && indentString == old(indentString) + "   " && |indentString| == |old(indentString)| + 3
      ensures document == old(document) + bracket && Solid(document)
    {
      WriteWithIndent(bracket);
      Trivial<char>(bracket);
      SolidEnd(old(document), bracket);
      Indent();
    }

    /** A closing bracket on a line of its own, one level up. */
    method Close(bracket: string)
      requires Valid() && |indentString| >= indentSize && Solid(document)
      modifies this`document, this`indentString
      ensures Valid() && indentString == old(indentString)[..|old(indentString)| - indentSize]
      ensures document == old(document) + (NewLine(|indentString|) + bracket)
    {
      Unindent();
      SolidGap(document, |indentString|);
      WriteWithIndent(bracket);
    }

    /** The members, one a line. */
    method WriteObject(value: Value)
      requires Valid() && value.Obj? && value.members != [] && !addChildValues && AtStart()
      modifies this`childValues, this`document, this`indentString, this`addChildValues
      ensures Valid() && indentString == old(indentString) && !addChildValues
      ensures document == old(document) + Layout(value, |indentString|)
      decreases value, 1
    {
      ghost var d := |indentString|;
      var it := 0;
      hide Layout, OpenMembers, MemberText, NewLine, IsMultiline, AreTexts, Solid;
      MembersGrow(value, 0, d + 3);
      SolidBracket();
      Open("{");
      while true
        invariant Valid() && !addChildValues && indentString == old(indentString) + "   "
        invariant it < |value.members|
        invariant document == old(document) + OpenMembers(value, it, d + 3) && Solid(document)
        decreases |value.members| - it
      {
        ghost var open, line: string := OpenMembers(value, it, d + 3), NewLine(d + 3) + MemberText(value.members[it], d + 3);
        MembersGrow(value, it, d + 3);
        WriteMember(value.members[it]);
        LineDone(old(document), open, line);
        it := it + 1;
        if it == |value.members| { break; }
        document := document + ",";
      }
      Close("}");
      LayoutCloses(value, d);
      Regroup<char>(old(document), OpenMembers(value, |value.members|, d + 3), NewLine(d) + "}");
    }

    /** The name and the value on a new line. */
    method WriteMember(member: Member)
      requires Valid() && !addChildValues && Solid(document)
      modifies this`childValues, this`document, this`indentString, this`addChildValues
      ensures Valid() && indentString == old(indentString) && !addChildValues && Solid(document)
      ensures document == old(document) + (NewLine(|indentString|) + MemberText(member, |indentString|))
      decreases member, 0
    {
      hide Layout, Quote, NewLine, Gap;
      ghost var d := |indentString|;
      var name := ValueToQuotedString(member.name);
      SolidGap(document, d);
      WriteWithIndent(name);
      document := document + " : ";
      SolidLayout(member.value, d);
      WriteValue(member.value);
      MemberPieces(old(document), NewLine(d), name, Layout(member.value, d));
      SolidEnd(old(document) + (NewLine(d) + name) + " : ", Layout(member.value, d));
    }

    method WriteArrayValue(value: Value)
      requires Valid() && value.Arr? && (if addChildValues then Size(value) == 0 else AtStart())
      modifies this`childValues, this`document, this`indentString, this`addChildValues
      ensures Valid() && indentString == old(indentString) && addChildValues == old(addChildValues)
      ensures addChildValues ==> document == old(document) && childValues == old(childValues) + [Flat(value)]
      ensures !addChildValues ==> document == old(document) + Layout(value, |indentString|)
      decreases value, 1
    {
      if |value.items| == 0 {
        PushValue("[]");
      } else {
        hide Layout, IsMultiline;
        var isArrayMultiLine := IsMultilineArray(value);
        if isArrayMultiLine {
          WriteMultiLine(value);
        } else {
          WriteSingleLine(value);
        }
      }
    }

    /** The cache holds the text of every element. */
    ghost predicate Cached(value: Value)
      requires value.Arr?
      reads this
    {
      |childValues| == |value.items| && AreTexts(childValues, value)
    }

    /** The elements, one a line. */
    method WriteMultiLine(value: Value)
      requires Valid() && value.Arr? && value.items != [] && !addChildValues && AtStart()
      requires IsMultiline(value) && (childValues == [] || Cached(value))
      modifies this`childValues, this`document, this`indentString, this`addChildValues
      ensures Valid() && indentString == old(indentString) && !addChildValues
      ensures document == old(document) + Layout(value, |indentString|)
      decreases value, 0, 1
    {
      ghost var d := |indentString|;
      var hasChildValue := childValues != [];
      var index := 0;
      hide Layout, OpenItems, MemberText, NewLine, IsMultiline, AreTexts, Solid;
      ItemsGrow(value, 0, d + 3);
      SolidBracket();
      Open("[");
      while true
        invariant Valid() && !addChildValues && indentString == old(indentString) + "   "
        invariant index < |value.items|
        invariant hasChildValue ==> Cached(value)
        invariant document == old(document) + OpenItems(value, index, d + 3) && Solid(document)
        decreases |value.items| - index
      {
        ghost var open, line: string := OpenItems(value, index, d + 3), NewLine(d + 3) + Layout(value.items[index], d + 3);
        ItemsGrow(value, index, d + 3);
        WriteItem(value, index, hasChildValue);
        LineDone(old(document), open, line);
        index := index + 1;
        if index == |value.items| { break; }
        document := document + ",";
      }
      Close("]");
      LayoutCloses(value, d);
      Regroup<char>(old(document), OpenItems(value, |value.items|, d + 3), NewLine(d) + "]");
    }

    /** One element on a new line, from the cache or directly. */
    method WriteItem(value: Value, index: nat, hasChildValue: bool)
      requires Valid() && value.Arr? && index < |value.items| && !addChildValues && Solid(document) && |indentString| > 0
      requires hasChildValue ==> Cached(value)
      modifies this`childValues, this`document, this`indentString, this`addChildValues
      ensures Valid() && indentString == old(indentString) && !addChildValues && Solid(document)
      ensures hasChildValue ==> Cached(value)
      ensures document == old(document) + (NewLine(|indentString|) + Layout(value.items[index], |indentString|))
      decreases value, 0, 0
    {
      var child := value.items[index];
      ghost var d := |indentString|;
      SolidLayout(child, d);
      SolidGap(document, d);
      if hasChildValue {
        FlatLayout(child, d);
        hide Layout, Flat, NewLine, Gap;
        WriteWithIndent(childValues[index]);
      } else {
        WriteIndent();
        LineEnds(old(document), d);
        hide Layout, NewLine, Gap;
        WriteValue(child);
        Regroup<char>(old(document), NewLine(d), Layout(child, d));
      }
      SolidEnd(old(document) + NewLine(d), Layout(child, d));
      Regroup<char>(old(document), NewLine(d), Layout(child, d));
    }

    /** One cached element, after a comma unless it is the first. */
    method WriteCached(text: string, comma: bool)
      modifies this`document
      ensures document == old(document) + ((if comma then ", " else "") + text)
    {
      FlatPiece(document, comma, text);
      if comma {
        document := document + ", ";
      }
      document := document + text;
    }

    /** The cached elements on the line. */
    method WriteSingleLine(value: Value)
      requires value.Arr? && value.items != [] && Cached(value) && !IsMultiline(value)
      modifies this`document
      ensures document == old(document) + Layout(value, |indentString|)
    {
      LayoutCloses(value, |indentString|);
      FlatGrows(value, 0);
      assert |childValues| == |value.items| && AreTexts(childValues, value);
      hide Layout, FlatLine, OpenFlat, IsMultiline, Flat, AreTexts, StyledWriter.Cached;
      document := document + "[ ";
      for index := 0 to |value.items|
        invariant document == old(document) + OpenFlat(value, index)
      {
        FlatGrows(value, index);
        TextAt(childValues, value, index);
        WriteCached(childValues[index], index > 0);
        Regroup<char>(old(document), OpenFlat(value, index), (if index > 0 then ", " else "") + childValues[index]);
      }
      Regroup<char>(old(document), OpenFlat(value, |value.items|), " ]");
      document := document + " ]";
    }

    /** Fills the cache when no element has anything inside it and there are not too many. */
    method IsMultilineArray(value: Value) returns (isMultiLine: bool)
      requires Valid() && value.Arr? && value.items != [] && !addChildValues
      modifies this`childValues, this`document, this`indentString, this`addChildValues
      ensures Valid() && indentString == old(indentString) && !addChildValues && document == old(document)
      ensures isMultiLine <==> IsMultiline(value)
      ensures childValues == [] || Cached(value)
      ensures !isMultiLine ==> Cached(value)
      decreases value, 0, 1
    {
      var size := |value.items|;
      isMultiLine := size * 3 >= rightMargin;
      childValues := [];
      var index := 0;
      while index < size && !isMultiLine
        invariant 0 <= index <= size
        invariant isMultiLine <==> size * 3 >= rightMargin || exists i :: 0 <= i < index && Size(value.items[i]) > 0
      {
        var child := value.items[index];
        isMultiLine := isMultiLine || ((child.Arr? || child.Obj?) && Size(child) > 0);
        index := index + 1;
      }
      if !isMultiLine {
        assert IsFlat(value);
        hide Size, Flat, Width;
        var lineLength := FillCache(value);
        isMultiLine := isMultiLine || lineLength >= rightMargin;
      }
    }

    /** Caches the texts of the elements and measures the line they would make. */
    method FillCache(value: Value) returns (lineLength: int)
      requires Valid() && value.Arr? && value.items != [] && !addChildValues && childValues == []
      requires IsFlat(value)
      modifies this`childValues, this`document, this`indentString, this`addChildValues
      ensures Valid() && indentString == old(indentString) && !addChildValues && document == old(document)
      ensures Cached(value)
      ensures lineLength == 4 + (|value.items| - 1) * 2 + Width(value, |value.items|)
      decreases value, 0, 0
    {
      addChildValues := true;
      var size := |value.items|;
      lineLength := 4 + (size - 1) * 2;
      WidthGrows(value);
      hide Flat, Width, AreTexts, Size, Layout, Blank;
      assert AreTexts([], value) by { NoTexts(value); }
      for index := 0 to size
        invariant Valid() && addChildValues && document == old(document) && indentString == old(indentString)
        invariant |childValues| == index && AreTexts(childValues, value)
        invariant lineLength == 4 + (size - 1) * 2 + Width(value, index)
      {
        OneMoreText(childValues, value);
        WriteValue(value.items[index]);
        lineLength := lineLength + |childValues[index]|;
      }
      addChildValues := false;
    }
  }

  lemma NoTexts(v: Value)
    requires v.Arr?
    ensures AreTexts([], v)
  {
  }

  lemma LineDone(a: string, open: string, line: string)
    ensures (a + open) + line == a + (open + line + "")
    ensures ((a + open) + line) + "," == a + (open + line + ",") && Solid(((a + open) + line) + ",")
  {
    Regroup<char>(a, open, line);
    Trivial<char>(open + line);
    Regroup<char>(a, open + line, ",");
  }

  lemma SolidBracket()
    ensures Solid("[") && Solid("{")
  {}

  lemma SolidGap(document: string, d: nat)
    requires Solid(document)
    ensures Gap(document, d) == NewLine(d)
  {}

  /** After a line break with some indentation, the document ends in a space. */
  lemma LineEnds(document: string, d: nat)
    requires d > 0
    ensures var text := document + NewLine(d); text != "" && text[|text| - 1] == ' '
  {}

  lemma MemberPieces(a: string, line: string, name: string, x: string)
    ensures ((a + (line + name)) + " : ") + x == a + (line + ((name + " : ") + x))
  {
    Regroup<char>(a, line + name, " : ");
    Regroup<char>(line, name, " : ");
    Regroup<char>(a, line + (name + " : "), x);
    Regroup<char>(line, name + " : ", x);
  }

  lemma FlatPiece(a: string, comma: bool, x: string)
    ensures (if comma then a + ", " else a) + x == a + ((if comma then ", " else "") + x)
  {
    if comma { Regroup<char>(a, ", ", x); } else { Trivial<char>(x); }
  }

  lemma TextAt(texts: seq<string>, v: Value, i: nat)
    requires v.Arr? && AreTexts(texts, v) && i < |texts|
    ensures Size(v.items[i]) == 0 && texts[i] == Flat(v.items[i])
  {}
}
