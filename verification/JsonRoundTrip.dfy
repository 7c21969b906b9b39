/** Writing a value and reading the document back. */
module JsonRoundTrip {
  import opened JsonLexing
  import opened JsonValues
  import opened JsonGrammar
  import opened JsonFastWriter
  import opened JsonStyledWriter
  import opened JsonReader

  /** Any document made of the value's tokens, whatever spaces stand between
    * them, is read without error as the value with its integers re-tagged. */
  lemma DocumentRoundTrip(doc: string, scan: string -> bool, v: Value, root: Value)
    requires RealFree(v) && Ordered(v) && Lex(doc, 0) == Toks(v)
    ensures
      var r := JsonGrammar.ReadValue(Input(doc, scan), 0, root);
      r.ok && r.errors == [] && r.value == Normal(v)
  {
    assert Toks(v) + [] == Toks(v);
    hide Lex, Toks, RealFree, Ordered, JsonGrammar.ReadValue, Normal;
    ReadsBack(Input(doc, scan), 0, v, root, []);
  }

  method FastRoundTrip(v: Value, yaml: bool, omitLineFeed: bool, scan: string -> bool, root: Value)
    returns (ok: bool, back: Value)
    requires RealFree(v) && Ordered(v)
    ensures ok && back == Normal(v)
  {
    hide Lex, Toks, RealFree, Ordered, JsonGrammar.ReadValue, Normal, Joined;
    var writer := new FastWriter();
    if yaml { writer.EnableYamlCompatibility(); }
    if omitLineFeed { writer.OmitEndingLineFeed(); }
    var text := writer.Write(v);
    FastDocumentLexes(v, writer.Colon(), if writer.omitsEndingLineFeed then "" else "\n");
    var reader := new Reader(scan);
    ok, back := reader.Parse(text, root);
    DocumentRoundTrip(text, scan, v, root);
  }

  method StyledRoundTrip(v: Value, scan: string -> bool, root: Value) returns (ok: bool, back: Value)
    requires RealFree(v) && Ordered(v)
    ensures ok && back == Normal(v)
  {
    hide Lex, Toks, RealFree, Ordered, JsonGrammar.ReadValue, Normal;
    var writer := new StyledWriter();
    var text := writer.Write(v);
    var reader := new Reader(scan);
    ok, back := reader.Parse(text, root);
    DocumentRoundTrip(text, scan, v, root);
  }

  /** The two writers give documents with the same tokens. */
  method WritersAgree(v: Value, yaml: bool) returns (fast: string, styled: string)
    ensures Lex(fast, 0) == Lex(styled, 0) == Toks(v)
  {
    hide Lex, Toks, Joined;
    var writer := new FastWriter();
    if yaml { writer.EnableYamlCompatibility(); }
    fast := writer.Write(v);
    FastDocumentLexes(v, writer.Colon(), "\n");
    var other := new StyledWriter();
    styled := other.Write(v);
  }

  /** Re-tagging shows nowhere in the text, so a value read back is written as it was. */
  lemma {:induction false} NormalKeepsTokens(v: Value)
    ensures Toks(Normal(v)) == Toks(v)
    decreases v, 1, 0
  {
    match v {
      case Arr(_) => NormalKeepsItems(v, 0);
      case Obj(_) => NormalKeepsMembers(v, 0);
      case _ =>
    }
  }

  lemma {:induction false} NormalKeepsItems(v: Value, k: nat)
    requires v.Arr? && k <= |v.items|
    ensures ItemsFrom(Normal(v), k) == ItemsFrom(v, k)
    decreases v, 0, |v.items| - k
  {
    if k < |v.items| {
      hide Toks;
      NormalKeepsTokens(v.items[k]);
      NormalKeepsItems(v, k + 1);
    }
  }

  lemma {:induction false} NormalKeepsMembers(v: Value, k: nat)
    requires v.Obj? && k <= |v.members|
    ensures MembersFrom(Normal(v), k) == MembersFrom(v, k)
    decreases v, 0, |v.members| - k
  {
    if k < |v.members| {
      hide Toks;
      NormalKeepsTokens(v.members[k].value);
      NormalKeepsMembers(v, k + 1);
    }
  }
}
