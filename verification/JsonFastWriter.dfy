/** The compact writer: the text of every token, one after another. */
module JsonFastWriter {
  import opened CStrings
  import opened JsonLexing
  import opened Lists
  import opened JsonStrings
  import opened JsonNumbers
  import opened JsonValues

  /** The token texts run together, with the given text for a colon. */
  function Joined(toks: seq<Lexeme>, colon: string): string {
    if toks == [] then ""
    else (if toks[0].kind == MemberSeparator then colon else toks[0].text) + Joined(toks[1..], colon)
  }

  lemma {:induction false} JoinedConcat(a: seq<Lexeme>, b: seq<Lexeme>, colon: string)
    ensures Joined(a + b, colon) == Joined(a, colon) + Joined(b, colon)
  {
    if a == [] {
      assert a + b == b;
    } else {
      JoinedConcat(a[1..], b, colon);
      assert (a + b)[1..] == a[1..] + b && (a + b)[0] == a[0];
      var first := if a[0].kind == MemberSeparator then colon else a[0].text;
      assert Joined(a + b, colon) == first + Joined(a[1..] + b, colon);
      assert Joined(a, colon) == first + Joined(a[1..], colon);
      hide Joined;
      Regroup<char>(first, Joined(a[1..], colon), Joined(b, colon));
    }
  }

  lemma JoinedOne(t: Lexeme, colon: string)
    ensures Joined([t], colon) == if t.kind == MemberSeparator then colon else t.text
  {
    assert [t][1..] == [];
  }

  class FastWriter {
    var document: string
    var yamlCompatibilityEnabled: bool
    var omitsEndingLineFeed: bool

    constructor ()
      ensures document == "" && !yamlCompatibilityEnabled && !omitsEndingLineFeed
    {
      document := "";
      yamlCompatibilityEnabled := false;
      omitsEndingLineFeed := false;
    }

    method EnableYamlCompatibility()
      modifies this`yamlCompatibilityEnabled
      ensures yamlCompatibilityEnabled
    {
      yamlCompatibilityEnabled := true;
    }

    method OmitEndingLineFeed()
      modifies this`omitsEndingLineFeed
      ensures omitsEndingLineFeed
    {
      omitsEndingLineFeed := true;
    }

    function Colon(): string
      reads this
    {
      if yamlCompatibilityEnabled then ": " else ":"
    }

    method Write(root: Value) returns (text: string)
      modifies this`document
      ensures text == document
        == Joined(Toks(root), if yamlCompatibilityEnabled then ": " else ":") + if omitsEndingLineFeed then "" else "\n"
    {
      document := "";
      WriteValue(root);
      if !omitsEndingLineFeed {
        document := document + "\n";
      }
      return document;
    }

    method WriteValue(value: Value)
      modifies this`document
      ensures document == old(document) + Joined(Toks(value), Colon())
      decreases value, 1
    {
      match value {
        case Null =>
          JoinedOne(Lexeme(NullToken, "null"), Colon());
          document := document + "null";
        case Int(i) =>
          var text := SignedToString(i);
          JoinedOne(Lexeme(NumberToken, text), Colon());
          document := document + text;
        case UInt(u) =>
          var text := UnsignedToString(u);
          JoinedOne(Lexeme(NumberToken, text), Colon());
          document := document + text;
        case Real(text) =>
          JoinedOne(Lexeme(NumberToken, text), Colon());
          document := document + text;
        case Str(s) =>
          var text := ValueToQuotedString(s);
          JoinedOne(Lexeme(StringToken, text), Colon());
          document := document + text;
        case Bool(b) =>
          JoinedOne(if b then Lexeme(TrueToken, "true") else Lexeme(FalseToken, "false"), Colon());
          document := document + if b then "true" else "false";
        case Arr(_) => WriteItems(value);
        case Obj(_) => WriteMembers(value);
      }
    }

    method WriteItems(value: Value)
      requires value.Arr?
      modifies this`document
      ensures document == old(document) + Joined(Toks(value), Colon())
      decreases value, 0
    {
      ghost var colon := Colon();
      hide Joined, Toks, ItemsUpTo;
      ArrayEnds(value, colon);
      document := document + "[";
      var size := |value.items|;
      for index := 0 to size
        invariant document == old(document) + Joined(OpenArray(value, index), colon)
      {
        if index > 0 {
          document := document + ",";
        }
        WriteValue(value.items[index]);
        ArrayGrows(value, index, colon);
      }
      document := document + "]";
    }

    method WriteMembers(value: Value)
      requires value.Obj?
      modifies this`document
      ensures document == old(document) + Joined(Toks(value), Colon())
      decreases value, 0
    {
      ghost var colon := Colon();
      hide Joined, Toks, MembersUpTo, Quote;
      ObjectEnds(value, colon);
      document := document + "{";
      for it := 0 to |value.members|
        invariant document == old(document) + Joined(OpenObject(value, it), colon)
      {
        var member := value.members[it];
        if it != 0 {
          document := document + ",";
        }
        var name := ValueToQuotedString(member.name);
        document := document + name;
        document := document + if yamlCompatibilityEnabled then ": " else ":";
        WriteValue(member.value);
        ObjectGrows(value, it, colon);
      }
      document := document + "}";
    }
  }

  /** The tokens written when the first `k` elements are. */
  ghost function OpenArray(v: Value, k: nat): seq<Lexeme>
    requires v.Arr? && k <= |v.items|
  {
    [Lexeme(ArrayBegin, "[")] + ItemsUpTo(v, k)
  }

  ghost function OpenObject(v: Value, k: nat): seq<Lexeme>
    requires v.Obj? && k <= |v.members|
  {
    [Lexeme(ObjectBegin, "{")] + MembersUpTo(v, k)
  }

  lemma ArrayEnds(v: Value, colon: string)
    requires v.Arr?
    ensures Joined(OpenArray(v, 0), colon) == "["
    ensures Joined(Toks(v), colon) == Joined(OpenArray(v, |v.items|), colon) + "]"
  {
    AllItems(v);
    JoinedOne(Lexeme(ArrayBegin, "["), colon);
    var _ := Extend(OpenArray(v, |v.items|), [Lexeme(ArrayEnd, "]")], colon);
  }

  lemma ArrayGrows(v: Value, k: nat, colon: string)
    requires v.Arr? && k < |v.items|
    ensures Joined(OpenArray(v, k + 1), colon)
      == Joined(OpenArray(v, k), colon) + (if k > 0 then "," else "") + Joined(Toks(v.items[k]), colon)
  {
    hide Toks;
    var toks := OpenArray(v, k);
    if k > 0 { toks := Extend(toks, [COMMA], colon); }
    toks := Extend(toks, Toks(v.items[k]), colon);
    assert toks == OpenArray(v, k + 1);
  }

  lemma ObjectEnds(v: Value, colon: string)
    requires v.Obj?
    ensures Joined(OpenObject(v, 0), colon) == "{"
    ensures Joined(Toks(v), colon) == Joined(OpenObject(v, |v.members|), colon) + "}"
  {
    AllMembers(v);
    JoinedOne(Lexeme(ObjectBegin, "{"), colon);
    var _ := Extend(OpenObject(v, |v.members|), [Lexeme(ObjectEnd, "}")], colon);
  }

  lemma ObjectGrows(v: Value, k: nat, colon: string)
    requires v.Obj? && k < |v.members|
    ensures Joined(OpenObject(v, k + 1), colon)
      == Joined(OpenObject(v, k), colon) + (if k > 0 then "," else "")
         + Quote(v.members[k].name) + colon + Joined(Toks(v.members[k].value), colon)
  {
    hide Toks, MemberToks, Quote;
    var toks := OpenObject(v, k);
    if k > 0 { toks := Extend(toks, [COMMA], colon); }
    toks := ExtendMember(toks, v.members[k], colon);
    assert toks == OpenObject(v, k + 1);
  }

  lemma Extend(toks: seq<Lexeme>, more: seq<Lexeme>, colon: string) returns (all: seq<Lexeme>)
    ensures all == toks + more
    ensures Joined(all, colon) == Joined(toks, colon) + Joined(more, colon)
    ensures |more| == 1 && more[0].kind != MemberSeparator ==> Joined(more, colon) == more[0].text
  {
    all := toks + more;
    JoinedConcat(toks, more, colon);
    if |more| == 1 {
      assert more == [more[0]];
      JoinedOne(more[0], colon);
    }
  }

  lemma ExtendMember(toks: seq<Lexeme>, m: Member, colon: string) returns (all: seq<Lexeme>)
    ensures all == toks + MemberToks(m)
    ensures Joined(all, colon) == Joined(toks, colon) + Quote(m.name) + colon + Joined(Toks(m.value), colon)
  {
    hide Toks, Quote, Joined;
    all := Extend(toks, [Lexeme(StringToken, Quote(m.name))], colon);
    JoinedOne(COLON, colon);
    all := Extend(all, [COLON], colon);
    all := Extend(all, Toks(m.value), colon);
  }

  // ---------------------------------------------------------------- reading it back as tokens

  predicate IsColon(colon: string) {
    colon == ":" || colon == ": "
  }

  lemma ColonRenders(colon: string)
    requires IsColon(colon)
    ensures Renders(colon, [COLON], true)
  {
    PunctuationRenders(MemberSeparator, ":");
    if colon == ": " {
      hide Renders;
      SpacesRender(" ");
      RendersConcat(":", [COLON], true, " ", [], true);
      assert ":" + " " == colon && [COLON] + [] == [COLON];
    }
  }

  /** One more closed text in front. */
  lemma Prepend(kind: Kind, text: string, b: string, tb: seq<Lexeme>, cb: bool)
    requires IsPunctuation(kind, text) && Renders(b, tb, cb)
    ensures Renders(text + b, [Lexeme(kind, text)] + tb, cb)
  {
    hide Renders;
    PunctuationRenders(kind, text);
    RendersConcat(text, [Lexeme(kind, text)], true, b, tb, cb);
  }

  /** The compact text of a value is cut back into exactly the value's tokens. */
  lemma {:induction false} ValueRenders(v: Value, colon: string)
    requires IsColon(colon)
    ensures Renders(Joined(Toks(v), colon), Toks(v), false)
    decreases v, 1, 0
  {
    match v {
      case Null => WordRendersJoined(NullToken, "null", colon);
      case Bool(b) => WordRendersJoined(if b then TrueToken else FalseToken, if b then "true" else "false", colon);
      case Int(i) => NumberRenders(Decimal(i)); JoinedOne(Lexeme(NumberToken, Decimal(i)), colon);
      case Real(text) => NumberRenders(text); JoinedOne(Lexeme(NumberToken, text), colon);
      case UInt(u) => NumberRenders(Decimal(u)); JoinedOne(Lexeme(NumberToken, Decimal(u)), colon);
      case Str(s) =>
        QuoteRenders(s);
        JoinedOne(Lexeme(StringToken, Quote(s)), colon);
        Weaken(Quote(s), [Lexeme(StringToken, Quote(s))]);
      case Arr(_) => ArrayRenders(v, colon);
      case Obj(_) => ObjectRenders(v, colon);
    }
  }

  lemma WordRendersJoined(kind: Kind, text: string, colon: string)
    requires IsWord(kind, text)
    ensures Renders(Joined([Lexeme(kind, text)], colon), [Lexeme(kind, text)], false)
  {
    WordRenders(kind, text);
    hide Renders;
    JoinedOne(Lexeme(kind, text), colon);
    Weaken(text, [Lexeme(kind, text)]);
  }

  lemma {:induction false} ArrayRenders(v: Value, colon: string)
    requires v.Arr? && IsColon(colon)
    ensures Renders(Joined(Toks(v), colon), Toks(v), false)
    decreases v, 0, |v.items| + 1
  {
    hide Renders, Joined, ItemsFrom;
    ItemsRender(v, 0, colon);
    Bracketed(Lexeme(ArrayBegin, "["), ItemsFrom(v, 0), Lexeme(ArrayEnd, "]"), colon);
  }

  lemma {:induction false} ObjectRenders(v: Value, colon: string)
    requires v.Obj? && IsColon(colon)
    ensures Renders(Joined(Toks(v), colon), Toks(v), false)
    decreases v, 0, |v.members| + 1
  {
    hide Renders, Joined, MembersFrom;
    MembersRender(v, 0, colon);
    Bracketed(Lexeme(ObjectBegin, "{"), MembersFrom(v, 0), Lexeme(ObjectEnd, "}"), colon);
  }

  lemma Bracketed(open: Lexeme, toks: seq<Lexeme>, close: Lexeme, colon: string)
    requires IsPunctuation(open.kind, open.text) && open.kind != MemberSeparator
    requires IsPunctuation(close.kind, close.text) && close.kind != MemberSeparator
    requires Renders(Joined(toks, colon), toks, false)
    ensures Renders(Joined([open] + toks + [close], colon), [open] + toks + [close], false)
  {
    hide Renders, Joined;
    var text := Joined(toks, colon);
    PunctuationRenders(close.kind, close.text);
    Weaken(close.text, [close]);
    RendersConcat(text, toks, false, close.text, [close], false);
    Prepend(open.kind, open.text, text + close.text, toks + [close], false);
    JoinedOne(open, colon);
    var all := Extend([open], toks, colon);
    all := Extend(all, [close], colon);
    assert open.text + (text + close.text) == Joined(all, colon);
    assert [open] + (toks + [close]) == all;
  }

  lemma {:induction false} ItemsRender(v: Value, k: nat, colon: string)
    requires v.Arr? && k <= |v.items| && IsColon(colon)
    ensures Renders(Joined(ItemsFrom(v, k), colon), ItemsFrom(v, k), false)
    decreases v, 0, |v.items| - k
  {
    hide Renders, Joined;
    if k == |v.items| {
      NothingRenders(colon);
    } else {
      hide Toks;
      assert v.items[k] in v.items;
      ValueRenders(v.items[k], colon);
      if k + 1 < |v.items| {
        ItemsRender(v, k + 1, colon);
        Separated(Toks(v.items[k]), ItemsFrom(v, k + 1), colon);
      }
    }
  }

  lemma Separated(a: seq<Lexeme>, b: seq<Lexeme>, colon: string)
    requires Renders(Joined(a, colon), a, false) && Renders(Joined(b, colon), b, false)
    ensures Renders(Joined(a + [COMMA] + b, colon), a + [COMMA] + b, false)
  {
    hide Renders, Joined;
    var ta, tb := Joined(a, colon), Joined(b, colon);
    Prepend(ArraySeparator, ",", tb, b, false);
    RendersConcat(ta, a, false, "," + tb, [COMMA] + b, false);
    JoinedOne(COMMA, colon);
    var all := Extend(a, [COMMA], colon);
    all := Extend(all, b, colon);
    assert ta + ("," + tb) == Joined(all, colon);
    assert a + ([COMMA] + b) == all;
  }

  lemma {:induction false} MembersRender(v: Value, k: nat, colon: string)
    requires v.Obj? && k <= |v.members| && IsColon(colon)
    ensures Renders(Joined(MembersFrom(v, k), colon), MembersFrom(v, k), false)
    decreases v, 0, |v.members| - k
  {
    hide Renders, Joined;
    if k == |v.members| {
      NothingRenders(colon);
    } else {
      hide Toks, MemberToks;
      assert v.members[k] in v.members;
      ValueRenders(v.members[k].value, colon);
      MemberRenders(v.members[k], colon);
      if k + 1 < |v.members| {
        MembersRender(v, k + 1, colon);
        Separated(MemberToks(v.members[k]), MembersFrom(v, k + 1), colon);
      }
    }
  }

  lemma MemberRenders(m: Member, colon: string)
    requires IsColon(colon) && Renders(Joined(Toks(m.value), colon), Toks(m.value), false)
    ensures Renders(Joined(MemberToks(m), colon), MemberToks(m), false)
  {
    hide Renders, Joined, Toks, Quote;
    var name, text := Lexeme(StringToken, Quote(m.name)), Joined(Toks(m.value), colon);
    QuoteRenders(m.name);
    ColonRenders(colon);
    RendersConcat(colon, [COLON], true, text, Toks(m.value), false);
    RendersConcat(name.text, [name], true, colon + text, [COLON] + Toks(m.value), false);
    var all := ExtendMember([], m, colon);
    assert all == [name] + ([COLON] + Toks(m.value)) == MemberToks(m);
    EmptyJoined(colon);
    assert Joined(all, colon) == name.text + (colon + text);
  }

  lemma EmptyJoined(colon: string)
    ensures Joined([], colon) == ""
  {
  }

  lemma NothingRenders(colon: string)
    ensures Renders(Joined([], colon), [], false)
  {
    SpacesRender("");
    Weaken("", []);
  }

  /** What `FastWriter.Write` returns, with any settings, is cut back into the value's tokens. */
  lemma FastDocumentLexes(v: Value, colon: string, ending: string)
    requires IsColon(colon)
    requires ending == "" || ending == "\n"
    ensures Lex(Joined(Toks(v), colon) + ending, 0) == Toks(v)
  {
    ValueRenders(v, colon);
    DocumentLexes(Joined(Toks(v), colon), ending, Toks(v));
  }

  /** A whole document made of a rendered text and some spaces. */
  lemma DocumentLexes(text: string, ending: string, toks: seq<Lexeme>)
    requires Renders(text, toks, false)
    requires ending == "" || ending == "\n"
    ensures Lex(text + ending, 0) == toks
  {
    var doc := text + ending;
    assert doc[0..0 + |text|] == text;
    assert Occurs(doc, 0, text) && !IsNumberChar(At(doc, |text|));
    assert Lex(doc, 0) == toks + Lex(doc, |text|);
    hide Renders, Occurs;
    assert SkipSpaces(doc, |text|) == |doc|;
  }
}
