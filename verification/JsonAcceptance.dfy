/** The reader succeeds exactly on the documents that begin with the tokens of
  * a legal tree, and gives what the tree stands for. */
module JsonAcceptance {
  import opened CStrings
  import opened JsonLexing
  import opened Lists
  import opened JsonStrings
  import opened JsonNumbers
  import opened JsonValues
  import opened JsonSyntax
  import opened JsonGrammar

  function LexemeAt(doc: string, t: Token): Lexeme
    requires t.start <= t.end <= |doc|
  {
    Lexeme(t.kind, doc[t.start..t.end])
  }

  lemma OneToken(doc: string, pos: nat)
    requires pos <= |doc|
    ensures Cuts(doc, pos, [LexemeAt(doc, ReadToken(doc, pos))], ReadToken(doc, pos).end)
  {
    hide ReadToken;
  }

  /** The comments before the next token, and that token. */
  lemma {:induction false} CommentsBefore(doc: string, pos: nat) returns (notes: seq<Lexeme>)
    requires pos <= |doc|
    ensures AllComments(notes)
    ensures notes == [] <==> ReadToken(doc, pos).kind != CommentToken
    ensures Cuts(doc, pos, notes + [LexemeAt(doc, SkipComments(doc, pos))], SkipComments(doc, pos).end)
    decreases |doc| - pos
  {
    var t := ReadToken(doc, pos);
    hide ReadToken;
    OneToken(doc, pos);
    if t.kind == CommentToken {
      var more := CommentsBefore(doc, t.end);
      notes := [LexemeAt(doc, t)] + more;
      CutsConcat(doc, pos, [LexemeAt(doc, t)], t.end, more + [LexemeAt(doc, SkipComments(doc, pos))], SkipComments(doc, pos).end);
      Regroup<Lexeme>([LexemeAt(doc, t)], more, [LexemeAt(doc, SkipComments(doc, pos))]);
    } else {
      notes := [];
      Trivial<Lexeme>([LexemeAt(doc, t)]);
    }
  }

  /** Where comments and another token stand, the reader skips to that token. */
  lemma {:induction false} SkipsTo(doc: string, pos: nat, notes: seq<Lexeme>, word: Lexeme, end: nat)
    requires AllComments(notes) && word.kind != CommentToken && Cuts(doc, pos, notes + [word], end)
    ensures pos <= |doc| && SkipComments(doc, pos).end == end && LexemeAt(doc, SkipComments(doc, pos)) == word
    ensures if notes == [] then SkipComments(doc, pos) == ReadToken(doc, pos) else ReadToken(doc, pos).kind == CommentToken
    decreases |notes|
  {
    var t := ReadToken(doc, pos);
    hide ReadToken;
    if notes == [] {
      Trivial<Lexeme>([word]);
    } else {
      assert (notes + [word])[1..] == notes[1..] + [word];
      SkipsTo(doc, t.end, notes[1..], word, end);
    }
  }

  // ---------------------------------------------------------------- success means a tree

  /** A token, comments before it, and what comes next. */
  lemma Opened(doc: string, pos: nat, notes: seq<Lexeme>, word: Lexeme, mid: nat, rest: seq<Lexeme>, end: nat)
    requires Cuts(doc, pos, notes + [word], mid) && Cuts(doc, mid, rest, end)
    ensures Cuts(doc, pos, notes + ([word] + rest), end)
    ensures Cuts(doc, pos, (notes + [word]) + rest, end)
  {
    CutsConcat(doc, pos, notes + [word], mid, rest, end);
    Regroup<Lexeme>(notes, [word], rest);
  }

  lemma {:induction false} SkippedShape(doc: string, pos: nat)
    requires pos <= |doc|
    ensures
      var t := SkipComments(doc, pos);
      HasShape(t.kind, doc[t.start..t.end])
    decreases |doc| - pos
  {
    hide ReadToken, HasShape;
    ReadTokenShape(doc, pos);
    var t := ReadToken(doc, pos);
    if t.kind == CommentToken { SkippedShape(doc, t.end); }
  }

  /** The text of a punctuation mark is known from its kind. */
  lemma Mark(doc: string, t: Token)
    requires t.start <= t.end <= |doc| && HasShape(t.kind, doc[t.start..t.end])
    ensures t.kind == ArrayBegin ==> LexemeAt(doc, t) == OPEN_BRACKET
    ensures t.kind == ArrayEnd ==> LexemeAt(doc, t) == CLOSE_BRACKET
    ensures t.kind == ObjectBegin ==> LexemeAt(doc, t) == OPEN_BRACE
    ensures t.kind == ObjectEnd ==> LexemeAt(doc, t) == CLOSE_BRACE
    ensures t.kind == ArraySeparator ==> LexemeAt(doc, t) == COMMA
    ensures t.kind == MemberSeparator ==> LexemeAt(doc, t) == COLON
  {
  }

  /** Comments and the token after them, with what is known of that token. */
  lemma CommentsAfter(doc: string, pos: nat) returns (notes: seq<Lexeme>, t: Token)
    requires pos <= |doc|
    ensures t == SkipComments(doc, pos) && AllComments(notes)
    ensures notes == [] <==> ReadToken(doc, pos).kind != CommentToken
    ensures Cuts(doc, pos, notes + [LexemeAt(doc, t)], t.end)
    ensures t.kind != CommentToken
    ensures t.kind == ObjectEnd ==> LexemeAt(doc, t) == CLOSE_BRACE
    ensures t.kind == ArrayEnd ==> LexemeAt(doc, t) == CLOSE_BRACKET
    ensures t.kind == ArraySeparator ==> LexemeAt(doc, t) == COMMA
    ensures t.kind == ObjectBegin ==> LexemeAt(doc, t) == OPEN_BRACE
    ensures t.kind == ArrayBegin ==> LexemeAt(doc, t) == OPEN_BRACKET
    ensures notes == [] ==> t == ReadToken(doc, pos)
  {
    notes := CommentsBefore(doc, pos);
    t := SkipComments(doc, pos);
    SkippedShape(doc, pos);
    hide ReadToken, HasShape;
    Mark(doc, t);
  }

  lemma ContentIsDecoded(input: Input, t: Token)
    requires t.start + 2 <= t.end <= |input.doc|
    ensures Content(LexemeAt(input.doc, t)) == Decoded(input, t)
  {
    hide Unescape;
    SliceOfSlice(input.doc, t.start, t.end, 1, t.end - t.start - 1);
  }

  lemma WordsByKind(kind: Kind, text: string)
    requires HasShape(kind, text)
    ensures IsWord(kind, text) <==> kind == TrueToken || kind == FalseToken || kind == NullToken
  {
  }

  /** A value of one token is read exactly when the token can stand alone. */
  lemma AtomIsRead(input: Input, pos: nat, current: Value)
    requires pos <= |input.doc|
    requires SkipComments(input.doc, pos).kind != ObjectBegin && SkipComments(input.doc, pos).kind != ArrayBegin
    ensures
      var t := SkipComments(input.doc, pos);
      var r := ReadValue(input, pos, current);
      var word := LexemeAt(input.doc, t);
      && (r.ok <==> IsAtom(word, input.scan))
      && (r.ok ==> r == Parsed(true, AtomValue(word, input.scan), t.end, []))
  {
    hide SkipComments, Meaning, Unescape, IsNumberText, IsWord, HasShape;
    var t := SkipComments(input.doc, pos);
    SkippedShape(input.doc, pos);
    WordsByKind(t.kind, input.doc[t.start..t.end]);
    if t.kind == StringToken { ContentIsDecoded(input, t); }
    hide Decoded, Content;
  }

  lemma {:induction false} ValueHasTree(input: Input, pos: nat, current: Value) returns (tree: Tree)
    requires pos <= |input.doc| && ReadValue(input, pos, current).ok
    ensures Spells(input.doc, input.scan, pos, tree, ReadValue(input, pos, current).pos)
    ensures ReadValue(input, pos, current).value == ValueOf(tree, input.scan)
    decreases |input.doc| - pos, 0, 0
  {
    hide SkipComments, ItemWords, FieldWords, ReadArray, ReadMembers, HasShape, DecodedNumber, Decoded, IsAtom, AtomValue;
    hide FieldMembers, LegalFields, Cuts;
    var doc, scan := input.doc, input.scan;
    var t, end := SkipComments(doc, pos), ReadValue(input, pos, current).pos;
    var notes, _ := CommentsAfter(doc, pos);
    var word := LexemeAt(doc, t);
    if t.kind == ObjectBegin {
      var fields := FieldsHaveTree(input, t.end, [], "");
      tree := Record(notes, fields);
      Opened(doc, pos, notes, word, t.end, FieldWords(fields), end);
    } else if t.kind == ArrayBegin {
      tree := ArrayHasTree(input, pos, notes, t);
    } else {
      tree := Scalar(notes, word);
      AtomIsRead(input, pos, current);
    }
  }

  /** The first token is the same from after the spaces. */
  lemma SpacesBefore(doc: string, pos: nat, toks: seq<Lexeme>, end: nat)
    requires pos <= |doc| && toks != []
    ensures Cuts(doc, SkipSpaces(doc, pos), toks, end) <==> Cuts(doc, pos, toks, end)
  {
    hide ReadToken, SkipSpaces;
    PeekIsNext(doc, pos);
  }

  lemma {:induction false} ArrayHasTree(input: Input, pos: nat, notes: seq<Lexeme>, t: Token) returns (tree: Tree)
    requires pos <= t.end <= |input.doc| && t.start < t.end && pos <= t.start && ReadArray(input, t.end).ok
    requires AllComments(notes) && Cuts(input.doc, pos, notes + [OPEN_BRACKET], t.end)
    ensures Spells(input.doc, input.scan, pos, tree, ReadArray(input, t.end).pos)
    ensures ReadArray(input, t.end).value == ValueOf(tree, input.scan)
    decreases |input.doc| - t.end, 2
  {
    hide SkipSpaces, ItemWords, ReadItems, ReadToken, Cuts, ItemValues, LegalItems;
    var doc, end := input.doc, ReadArray(input, t.end).pos;
    var start := SkipSpaces(doc, t.end);
    PeekIsNext(doc, t.end);
    if ReadToken(doc, t.end).kind == ArrayEnd {
      tree := NoItems(notes);
      OneToken(doc, t.end);
      ReadTokenShape(doc, t.end);
      Mark(doc, ReadToken(doc, t.end));
      Opened(doc, pos, notes, OPEN_BRACKET, t.end, [CLOSE_BRACKET], end);
      assert [OPEN_BRACKET] + [CLOSE_BRACKET] == [OPEN_BRACKET, CLOSE_BRACKET];
    } else {
      var items := ItemsHaveTree(input, start, []);
      tree := Items(notes, items);
      Trivial<Value>(ItemValues(items, input.scan));
      ItemWordsGo(items);
      SpacesBefore(doc, t.end, ItemWords(items), end);
      Opened(doc, pos, notes, OPEN_BRACKET, t.end, ItemWords(items), end);
    }
  }

  lemma ItemWordsGo(e: Elements)
    ensures ItemWords(e) != []
    ensures Words(e.item) != [] ==> ItemWords(e)[0] == Words(e.item)[0]
  {
  }

  lemma {:induction false} ItemsHaveTree(input: Input, pos: nat, done: seq<Value>) returns (e: Elements)
    requires pos <= |input.doc| && ReadItems(input, pos, done).ok
    ensures LegalItems(e, input.scan) && Cuts(input.doc, pos, ItemWords(e), ReadItems(input, pos, done).pos)
    ensures ReadItems(input, pos, done).value == Arr(done + ItemValues(e, input.scan))
    decreases |input.doc| - pos, 1
  {
    hide SkipComments, ReadValue, Recover, HasShape, Words, Cuts, ValueOf, Legal;
    var doc, scan := input.doc, input.scan;
    var item := ValueHasTree(input, pos, Null);
    var r := ReadValue(input, pos, Null);
    var after, t := CommentsAfter(doc, r.pos);
    CutsConcat(doc, pos, Words(item), r.pos, after + [LexemeAt(doc, t)], t.end);
    var items := done + [r.value];
    if t.kind == ArrayEnd {
      e := LastItem(item, after);
    } else {
      var others := ItemsHaveTree(input, t.end, items);
      e := NextItem(item, after, others);
      var end := ReadItems(input, pos, done).pos;
      CutsConcat(doc, pos, Words(item) + (after + [COMMA]), t.end, ItemWords(others), end);
      Regroup<Lexeme>(Words(item), after + [COMMA], ItemWords(others));
      Regroup<Value>(done, [r.value], ItemValues(others, scan));
    }
  }

  lemma {:induction false} FieldsHaveTree(input: Input, pos: nat, done: seq<Member>, name: string) returns (f: Fields)
    requires pos <= |input.doc| && ReadMembers(input, pos, done, name).ok
    ensures LegalFields(f, name, input.scan) && Cuts(input.doc, pos, FieldWords(f), ReadMembers(input, pos, done, name).pos)
    ensures ReadMembers(input, pos, done, name).value == Obj(FieldMembers(f, name, input.scan, done))
    decreases |input.doc| - pos, 3
  {
    hide SkipComments, RestOfMember, Recover, HasShape, Cuts, Legal;
    var doc := input.doc;
    var before, t := CommentsAfter(doc, pos);
    if t.kind == ObjectEnd && name == "" {
      f := NoField(before);
    } else {
      f := FieldHasTree(input, pos, done, name, before, t);
    }
  }

  /** What follows the value of a member decides whether the object goes on. */
  lemma AfterMember(input: Input, t: Token, done: seq<Member>)
    requires t.start + 2 <= t.end <= |input.doc| && Decoded(input, t).Text?
    requires
      var colon := ReadToken(input.doc, t.end);
      colon.kind == MemberSeparator && ReadValue(input, colon.end, Lookup(done, Cut(Decoded(input, t).text))).ok
    ensures
      var name := Decoded(input, t).text;
      var r := ReadValue(input, ReadToken(input.doc, t.end).end, Lookup(done, Cut(name)));
      var comma, next := ReadToken(input.doc, r.pos), SkipComments(input.doc, r.pos);
      var members := Store(done, Cut(name), r.value);
      var m := RestOfMember(input, t, done);
      if next.kind == ObjectEnd then m == Done(Parsed(true, Obj(members), next.end, []))
      else if comma.kind == CommentToken || comma.kind == ArraySeparator then m == Goes(next.end, members, name)
      else m.Done? && !m.result.ok
  {
    hide ReadToken, ReadValue, Recover, Decoded, Store, Lookup;
  }

  lemma {:induction false} FieldHasTree(input: Input, pos: nat, done: seq<Member>, name: string, before: seq<Lexeme>, t: Token)
    returns (f: Fields)
    requires pos <= t.start && t.start + 2 <= t.end <= |input.doc| && t.kind == StringToken
    requires AllComments(before) && Cuts(input.doc, pos, before + [LexemeAt(input.doc, t)], t.end)
    requires t == SkipComments(input.doc, pos) && ReadMembers(input, pos, done, name).ok
    ensures LegalFields(f, name, input.scan) && Cuts(input.doc, pos, FieldWords(f), ReadMembers(input, pos, done, name).pos)
    ensures ReadMembers(input, pos, done, name).value == Obj(FieldMembers(f, name, input.scan, done))
    decreases |input.doc| - pos, 2
  {
    hide SkipComments, ReadToken, ReadValue, RestOfMember, HasShape, Cuts, Store, Lookup, Decoded, Words, Legal, ValueOf;
    hide Content;
    var doc, scan := input.doc, input.scan;
    var word := LexemeAt(doc, t);
    var value := MemberHasTree(input, t, done);
    AfterMember(input, t, done);
    var colon, text := ReadToken(doc, t.end), Content(word).text;
    var r := ReadValue(input, colon.end, Lookup(done, Cut(text)));
    var after, next := CommentsAfter(doc, r.pos);
    var end := ReadMembers(input, pos, done, name).pos;
    CutsConcat(doc, t.end, [COLON] + Words(value), r.pos, after + [LexemeAt(doc, next)], next.end);
    if next.kind == ObjectEnd {
      f := LastField(before, word, value, after);
      Regroup<Lexeme>([COLON], Words(value), after + [CLOSE_BRACE]);
      CutsConcat(doc, pos, before + [word], t.end, [COLON] + (Words(value) + (after + [CLOSE_BRACE])), end);
    } else {
      var members := Store(done, Cut(text), r.value);
      var others := FieldsHaveTree(input, next.end, members, text);
      var separator := LexemeAt(doc, next);
      f := NextField(before, word, value, after, separator, others);
      CutsConcat(doc, t.end, ([COLON] + Words(value)) + (after + [separator]), next.end, FieldWords(others), end);
      Regroup5([COLON], Words(value), after + [separator], FieldWords(others));
      CutsConcat(doc, pos, before + [word], t.end, [COLON] + (Words(value) + ((after + [separator]) + FieldWords(others))), end);
    }
  }

  lemma Regroup5(a: seq<Lexeme>, b: seq<Lexeme>, c: seq<Lexeme>, d: seq<Lexeme>)
    ensures ((a + b) + c) + d == a + (b + (c + d))
  {
  }

  /** The name, the colon and the value of a member. */
  lemma {:induction false} MemberHasTree(input: Input, t: Token, done: seq<Member>) returns (value: Tree)
    requires t.start + 2 <= t.end <= |input.doc| && t.kind == StringToken
    requires RestOfMember(input, t, done).Goes? || RestOfMember(input, t, done).result.ok
    ensures IsString(LexemeAt(input.doc, t)) && Content(LexemeAt(input.doc, t)) == Decoded(input, t)
    ensures
      var name := Content(LexemeAt(input.doc, t)).text;
      var colon := ReadToken(input.doc, t.end);
      var r := ReadValue(input, colon.end, Lookup(done, Cut(name)));
      && r.ok && colon.kind == MemberSeparator
      && Spells(input.doc, input.scan, colon.end, value, r.pos)
      && r.value == ValueOf(value, input.scan)
      && Cuts(input.doc, t.end, [COLON] + Words(value), r.pos)
    decreases |input.doc| - t.end, 1
  {
    hide SkipComments, ReadToken, ReadValue, Recover, HasShape, Unescape, Store, Lookup, Cut, Cuts, Words, Legal;
    var doc := input.doc;
    ContentIsDecoded(input, t);
    hide Content, Decoded;
    var colon := ReadToken(doc, t.end);
    var key := Cut(Content(LexemeAt(doc, t)).text);
    ReadTokenShape(doc, t.end);
    Mark(doc, colon);
    OneToken(doc, t.end);
    value := ValueHasTree(input, colon.end, Lookup(done, key));
    CutsConcat(doc, t.end, [COLON], colon.end, Words(value), ReadValue(input, colon.end, Lookup(done, key)).pos);
  }

  // ---------------------------------------------------------------- a tree means success

  /** Comments, one token and more: where the token ends, and that the reader gets there. */
  lemma Taken(doc: string, pos: nat, notes: seq<Lexeme>, word: Lexeme, rest: seq<Lexeme>, end: nat) returns (mid: nat)
    requires AllComments(notes) && word.kind != CommentToken && Cuts(doc, pos, (notes + [word]) + rest, end)
    ensures pos <= |doc| && LexemeAt(doc, SkipComments(doc, pos)) == word && SkipComments(doc, pos).end == mid
    ensures if notes == [] then SkipComments(doc, pos) == ReadToken(doc, pos) else ReadToken(doc, pos).kind == CommentToken
    ensures Cuts(doc, mid, rest, end)
  {
    hide ReadToken;
    mid := CutsSplit(doc, pos, notes + [word], rest, end);
    SkipsTo(doc, pos, notes, word, mid);
  }

  lemma {:induction false} TreeIsRead(input: Input, pos: nat, current: Value, tree: Tree, end: nat)
    requires Spells(input.doc, input.scan, pos, tree, end)
    ensures pos <= |input.doc| && ReadValue(input, pos, current) == Parsed(true, ValueOf(tree, input.scan), end, [])
    decreases tree, 1
  {
    hide SkipComments, ItemWords, FieldWords, ReadArray, ReadMembers, HasShape, DecodedNumber, Decoded, IsAtom, AtomValue;
    hide FieldMembers, LegalFields, Cuts;
    var doc := input.doc;
    match tree {
      case Scalar(notes, token) =>
        AtomKind(token, input.scan);
        SkipsTo(doc, pos, notes, token, end);
        AtomIsRead(input, pos, current);
      case Record(notes, fields) =>
        Regroup<Lexeme>(notes, [OPEN_BRACE], FieldWords(fields));
        var mid := Taken(doc, pos, notes, OPEN_BRACE, FieldWords(fields), end);
        FieldsAreRead(input, mid, [], "", fields, end);
      case _ =>
        ArrayIsRead(input, pos, current, tree, end);
    }
  }

  lemma AtomKind(l: Lexeme, scan: string -> bool)
    requires IsAtom(l, scan)
    ensures l.kind != CommentToken && l.kind != ObjectBegin && l.kind != ArrayBegin
  {
  }

  lemma {:induction false} ArrayIsRead(input: Input, pos: nat, current: Value, tree: Tree, end: nat)
    requires Spells(input.doc, input.scan, pos, tree, end) && (tree.NoItems? || tree.Items?)
    ensures pos <= |input.doc| && ReadValue(input, pos, current) == Parsed(true, ValueOf(tree, input.scan), end, [])
    decreases tree, 0
  {
    hide SkipComments, SkipSpaces, ReadToken, ItemWords, ReadItems, Cuts, ItemValues, LegalItems;
    var doc := input.doc;
    var rest := if tree.NoItems? then [CLOSE_BRACKET] else ItemWords(tree.items);
    assert tree.NoItems? ==> [OPEN_BRACKET] + [CLOSE_BRACKET] == [OPEN_BRACKET, CLOSE_BRACKET];
    Regroup<Lexeme>(tree.notes, [OPEN_BRACKET], rest);
    var mid := Taken(doc, pos, tree.notes, OPEN_BRACKET, rest, end);
    PeekIsNext(doc, mid);
    if tree.NoItems? {
      FirstWord(doc, mid, rest, end);
      LastWord(doc, mid, CLOSE_BRACKET, end);
    } else {
      FirstOfItems(tree.items, input.scan);
      FirstWord(doc, mid, rest, end);
      SpacesBefore(doc, mid, rest, end);
      ItemsAreRead(input, SkipSpaces(doc, mid), [], tree.items, end);
      Trivial<Value>(ItemValues(tree.items, input.scan));
    }
  }

  lemma FirstWord(doc: string, pos: nat, toks: seq<Lexeme>, end: nat)
    requires toks != [] && Cuts(doc, pos, toks, end)
    ensures pos <= |doc| && LexemeAt(doc, ReadToken(doc, pos)) == toks[0]
  {
    hide ReadToken;
  }

  lemma LastWord(doc: string, pos: nat, word: Lexeme, end: nat)
    requires Cuts(doc, pos, [word], end)
    ensures pos <= |doc| && ReadToken(doc, pos).end == end
  {
    hide ReadToken;
    assert [word][1..] == [];
  }

  /** The closing bracket does not begin a value. */
  lemma FirstOfTree(t: Tree, scan: string -> bool)
    requires Legal(t, scan)
    ensures Words(t) != [] && Words(t)[0].kind != ArrayEnd
  {
    hide LegalItems, LegalFields, ItemWords, FieldWords, Content, Meaning, IsNumberText;
    assert t.notes != [] ==> Words(t)[0] == t.notes[0] && t.notes[0] in t.notes;
  }

  lemma FirstOfItems(e: Elements, scan: string -> bool)
    requires LegalItems(e, scan)
    ensures ItemWords(e) != [] && ItemWords(e)[0].kind != ArrayEnd
  {
    hide Legal;
    FirstOfTree(e.item, scan);
    ItemWordsGo(e);
  }

  lemma {:induction false} ItemsAreRead(input: Input, pos: nat, done: seq<Value>, e: Elements, end: nat)
    requires LegalItems(e, input.scan) && Cuts(input.doc, pos, ItemWords(e), end)
    ensures pos <= |input.doc|
    ensures ReadItems(input, pos, done) == Parsed(true, Arr(done + ItemValues(e, input.scan)), end, [])
    decreases e
  {
    hide SkipComments, ReadToken, ReadValue, Recover, Words, Cuts, ValueOf, Legal;
    var doc, scan := input.doc, input.scan;
    var word := if e.LastItem? then CLOSE_BRACKET else COMMA;
    var rest := if e.LastItem? then [] else ItemWords(e.others);
    assert ItemWords(e) == Words(e.item) + ((e.after + [word]) + rest);
    var mid := CutsSplit(doc, pos, Words(e.item), (e.after + [word]) + rest, end);
    TreeIsRead(input, pos, Null, e.item, mid);
    var next := Taken(doc, mid, e.after, word, rest, end);
    if e.LastItem? {
      NoWords(doc, next, end);
    } else {
      var items := done + [ValueOf(e.item, scan)];
      ItemsAreRead(input, next, items, e.others, end);
      Regroup<Value>(done, [ValueOf(e.item, scan)], ItemValues(e.others, scan));
    }
  }

  lemma NoWords(doc: string, pos: nat, end: nat)
    requires Cuts(doc, pos, [], end)
    ensures pos == end
  {
  }

  lemma {:induction false} FieldsAreRead(input: Input, pos: nat, done: seq<Member>, last: string, f: Fields, end: nat)
    requires LegalFields(f, last, input.scan) && Cuts(input.doc, pos, FieldWords(f), end)
    ensures pos <= |input.doc|
    ensures ReadMembers(input, pos, done, last) == Parsed(true, Obj(FieldMembers(f, last, input.scan, done)), end, [])
    decreases f, 2
  {
    hide SkipComments, ReadToken, RestOfMember, Recover, Cuts, Legal, IsString;
    if f.NoField? {
      SkipsTo(input.doc, pos, f.before, CLOSE_BRACE, end);
    } else {
      FieldIsRead(input, pos, done, last, f, end);
    }
  }

  /** The token after a member, and those of the members after it. */
  function Closer(f: Fields): Lexeme
    requires !f.NoField?
  {
    if f.LastField? then CLOSE_BRACE else f.separator
  }

  function Others(f: Fields): seq<Lexeme> {
    if f.NextField? then FieldWords(f.others) else []
  }

  /** The name, the colon and the value are read. */
  lemma {:induction false} MemberIsRead(input: Input, pos: nat, done: seq<Member>, last: string, f: Fields, end: nat) returns (after: nat)
    requires !f.NoField? && LegalFields(f, last, input.scan) && Cuts(input.doc, pos, FieldWords(f), end)
    ensures pos <= |input.doc|
    ensures
      var t := SkipComments(input.doc, pos);
      && t.kind == StringToken && Decoded(input, t) == Content(f.name) && Decoded(input, t).Text?
      && ReadToken(input.doc, t.end).kind == MemberSeparator
      && ReadValue(input, ReadToken(input.doc, t.end).end, Lookup(done, Cut(Content(f.name).text)))
           == Parsed(true, ValueOf(f.value, input.scan), after, [])
    ensures Cuts(input.doc, after, (f.after + [Closer(f)]) + Others(f), end)
    decreases f, 0
  {
    hide SkipComments, ReadToken, ReadValue, Cuts, Legal, Words, ValueOf, Content, Decoded, Lookup;
    var doc := input.doc;
    var rest := (f.after + [Closer(f)]) + Others(f);
    var tail := Words(f.value) + rest;
    assert FieldWords(f) == (f.before + [f.name]) + ([COLON] + tail) by { Trivial<Lexeme>(f.after + [Closer(f)]); }
    hide FieldWords;
    var a := Taken(doc, pos, f.before, f.name, [COLON] + tail, end);
    ContentIsDecoded(input, SkipComments(doc, pos));
    Trivial<Lexeme>([COLON]);
    var b := Taken(doc, a, [], COLON, tail, end);
    after := CutsSplit(doc, b, Words(f.value), rest, end);
    TreeIsRead(input, b, Lookup(done, Cut(Content(f.name).text)), f.value, after);
  }

  lemma {:induction false} FieldIsRead(input: Input, pos: nat, done: seq<Member>, last: string, f: Fields, end: nat)
    requires !f.NoField? && LegalFields(f, last, input.scan) && Cuts(input.doc, pos, FieldWords(f), end)
    ensures pos <= |input.doc|
    ensures ReadMembers(input, pos, done, last) == Parsed(true, Obj(FieldMembers(f, last, input.scan, done)), end, [])
    decreases f, 1
  {
    hide SkipComments, ReadToken, ReadValue, RestOfMember, Recover, Cuts, Legal, FieldWords, ValueOf, Content, Decoded, Store, Lookup;
    var doc, scan := input.doc, input.scan;
    var after := MemberIsRead(input, pos, done, last, f, end);
    var t := SkipComments(doc, pos);
    var next := Taken(doc, after, f.after, Closer(f), Others(f), end);
    AfterMember(input, t, done);
    if f.LastField? {
      NoWords(doc, next, end);
    } else {
      var name := Content(f.name).text;
      FieldsAreRead(input, next, Store(done, Cut(name), ValueOf(f.value, scan)), name, f.others, end);
    }
  }

  // ---------------------------------------------------------------- exactly

  /** The reader succeeds if and only if the document begins with a legal tree,
    * and then the value is the tree's, whatever the place held before. */
  lemma ReadsExactlyTrees(input: Input, pos: nat, current: Value)
    requires pos <= |input.doc|
    ensures
      var r := ReadValue(input, pos, current);
      && (r.ok <==> exists tree, end :: Spells(input.doc, input.scan, pos, tree, end))
      && forall tree, end | Spells(input.doc, input.scan, pos, tree, end) ::
           r == Parsed(true, ValueOf(tree, input.scan), end, [])
  {
    hide ReadValue, ValueOf, Cuts, Words, Legal;
    if ReadValue(input, pos, current).ok {
      var tree := ValueHasTree(input, pos, current);
    }
    forall tree, end | Spells(input.doc, input.scan, pos, tree, end)
      ensures ReadValue(input, pos, current) == Parsed(true, ValueOf(tree, input.scan), end, [])
    {
      TreeIsRead(input, pos, current, tree, end);
    }
  }
}
