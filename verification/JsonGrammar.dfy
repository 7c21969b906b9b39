/** What the reader computes, as functions of the document and a position. */
module JsonGrammar {
  import opened CStrings
  import opened JsonLexing
  import opened Lists
  import opened JsonStrings
  import opened JsonNumbers
  import opened JsonValues

  /** A document, and which texts the C library can read as floating point. */
  datatype Input = Input(doc: string, scan: string -> bool)

  datatype Place = Nowhere | AtPos(pos: nat)

  datatype Error = Error(message: Message, token: Token, extra: Place)

  /** What reading gives: the new contents of the current value, where the
    * reader stands, and the errors added on the way. */
  datatype Parsed = Parsed(ok: bool, value: Value, pos: nat, errors: seq<Error>)

  function TextOf(input: Input, t: Token): string
    requires t.start <= t.end <= |input.doc|
  {
    input.doc[t.start..t.end]
  }

  function Failed(input: Input, value: Value, pos: nat, errors: seq<Error>, until: Kind): (r: Parsed)
    requires pos <= |input.doc|
    ensures pos <= r.pos <= |input.doc|
  {
    Parsed(false, value, Recover(input.doc, pos, until), errors)
  }

  function DecodedNumber(input: Input, t: Token, current: Value): (r: Parsed)
    requires t.start <= t.end <= |input.doc| && IsNumberText(TextOf(input, t))
    ensures r.pos == t.end && |r.errors| == (if r.ok then 0 else 1)
  {
    match Meaning(TextOf(input, t), input.scan)
    case Signed(i) => Parsed(true, Int(i), t.end, [])
    case Unsigned(u) => Parsed(true, UInt(u), t.end, [])
    case Double(text) => Parsed(true, Real(text), t.end, [])
    case NotANumber => Parsed(false, current, t.end, [NotANumberError(input, t)])
  }

  function NotANumberError(input: Input, t: Token): Error
    requires t.start <= t.end <= |input.doc|
  {
    Error(Message.NotANumber(TextOf(input, t)), t, Nowhere)
  }

  function Decoded(input: Input, t: Token): (r: Unescaped)
    requires t.start + 2 <= t.end <= |input.doc|
  {
    Unescape(input.doc[t.start + 1..t.end - 1], 0, "")
  }

  function DecodeError(t: Token, r: Unescaped): Error
    requires r.Bad?
  {
    Error(r.message, t, AtPos(t.start + 1 + r.at))
  }

  /** Reads a value into the place that now holds `current`. */
  function ReadValue(input: Input, pos: nat, current: Value): (r: Parsed)
    requires pos <= |input.doc|
    ensures pos <= r.pos <= |input.doc|
    ensures |r.errors| == if r.ok then 0 else 1
    decreases |input.doc| - pos, 0, 0
  {
    var t := SkipComments(input.doc, pos);
    match t.kind
    case ObjectBegin => ReadMembers(input, t.end, [], "")
    case ArrayBegin => ReadArray(input, t.end)
    case NumberToken => DecodedNumber(input, t, current)
    case StringToken =>
      var s := Decoded(input, t);
      if s.Bad? then Parsed(false, current, t.end, [DecodeError(t, s)])
      else Parsed(true, Str(Cut(s.text)), t.end, [])
    case TrueToken => Parsed(true, Bool(true), t.end, [])
    case FalseToken => Parsed(true, Bool(false), t.end, [])
    case NullToken => Parsed(true, Null, t.end, [])
    case _ => Parsed(false, current, t.end, [Error(ValueExpected, t, Nowhere)])
  }

  /** An array, from just after its opening bracket. */
  function ReadArray(input: Input, pos: nat): (r: Parsed)
    requires pos <= |input.doc|
    ensures pos <= r.pos <= |input.doc|
    ensures |r.errors| == if r.ok then 0 else 1
    decreases |input.doc| - pos, 2
  {
    var start := SkipSpaces(input.doc, pos);
    if At(input.doc, start) == ']' then Parsed(true, Arr([]), start + 1, [])
    else ReadItems(input, start, [])
  }

  /** The rest of an array whose first elements have been read. */
  function ReadItems(input: Input, pos: nat, done: seq<Value>): (r: Parsed)
    requires pos <= |input.doc|
    ensures pos <= r.pos <= |input.doc|
    ensures |r.errors| == if r.ok then 0 else 1
    decreases |input.doc| - pos, 1
  {
    var m := ReadOneItem(input, pos, done);
    if m.More? then ReadItems(input, m.pos, m.items) else m.result
  }

  /** After one element an array is done with, or it goes on. */
  datatype Further = More(pos: nat, items: seq<Value>) | Closed(result: Parsed)

  /** An element and the token after it. */
  function ReadOneItem(input: Input, pos: nat, done: seq<Value>): (r: Further)
    requires pos <= |input.doc|
    ensures r.More? ==> pos < r.pos <= |input.doc|
    ensures r.Closed? ==> pos <= r.result.pos <= |input.doc| && |r.result.errors| == (if r.result.ok then 0 else 1)
    ensures r.Closed? ==> r.result.value.Arr?
    decreases |input.doc| - pos, 0, 1
  {
    var r := ReadValue(input, pos, Null);
    var items := done + [r.value];
    if !r.ok then Closed(Failed(input, Arr(items), r.pos, r.errors, ArrayEnd)) else
    var t := SkipComments(input.doc, r.pos);
    if t.kind == ArrayEnd then Closed(Parsed(true, Arr(items), t.end, []))
    else if t.kind == ArraySeparator then More(t.end, items)
    else Closed(Failed(input, Arr(items), t.end, [Error(ItemEndExpected, t, Nowhere)], ArrayEnd))
  }

  /** The rest of an object whose first members have been read. `name` is the
    * last name read: a closing brace is accepted here only after no name or an
    * empty one. */
  function ReadMembers(input: Input, pos: nat, done: seq<Member>, name: string): (r: Parsed)
    requires pos <= |input.doc|
    ensures pos <= r.pos <= |input.doc|
    ensures |r.errors| == if r.ok then 0 else 1
    decreases |input.doc| - pos, 3
  {
    var t := SkipComments(input.doc, pos);
    if t.kind == ObjectEnd && name == "" then Parsed(true, Obj(done), t.end, [])
    else if t.kind != StringToken then
      Failed(input, Obj(done), t.end, [Error(NameExpected, t, Nowhere)], ObjectEnd)
    else
      var m := RestOfMember(input, t, done);
      if m.Goes? then ReadMembers(input, m.pos, m.members, m.name) else m.result
  }

  /** After one member an object is done with, or it goes on. */
  datatype Onward = Goes(pos: nat, members: seq<Member>, name: string) | Done(result: Parsed)

  /** A member from its name on, and what follows it. After a comment any token
    * but a closing brace is taken for a comma. */
  function RestOfMember(input: Input, t: Token, done: seq<Member>): (r: Onward)
    requires t.start + 2 <= t.end <= |input.doc|
    ensures r.Goes? ==> t.end < r.pos <= |input.doc|
    ensures r.Done? ==> t.end <= r.result.pos <= |input.doc| && |r.result.errors| == (if r.result.ok then 0 else 1)
    ensures r.Done? ==> r.result.value.Obj?
    decreases |input.doc| - t.end, 1
  {
    var s := Decoded(input, t);
    if s.Bad? then Done(Failed(input, Obj(done), t.end, [DecodeError(t, s)], ObjectEnd)) else
    var colon := ReadToken(input.doc, t.end);
    if colon.kind != MemberSeparator then
      Done(Failed(input, Obj(done), colon.end, [Error(ColonExpected, colon, Nowhere)], ObjectEnd))
    else
      var r := ReadValue(input, colon.end, Lookup(done, Cut(s.text)));
      var members := Store(done, Cut(s.text), r.value);
      if !r.ok then Done(Failed(input, Obj(members), r.pos, r.errors, ObjectEnd)) else
      var comma := ReadToken(input.doc, r.pos);
      if comma.kind != ObjectEnd && comma.kind != ArraySeparator && comma.kind != CommentToken then
        Done(Failed(input, Obj(members), comma.end, [Error(MemberEndExpected, comma, Nowhere)], ObjectEnd))
      else
        var next := if comma.kind == CommentToken then SkipComments(input.doc, comma.end) else comma;
        if next.kind == ObjectEnd then Done(Parsed(true, Obj(members), next.end, []))
        else Goes(next.end, members, s.text)
  }

  // ---------------------------------------------------------------- what the reader builds is in order

  lemma {:induction false} ReadValueIsOrdered(input: Input, pos: nat, current: Value)
    requires pos <= |input.doc| && Ordered(current)
    ensures Ordered(ReadValue(input, pos, current).value)
    decreases |input.doc| - pos, 0, 0
  {
    hide Decoded, DecodedNumber, Recover;
    var t := SkipComments(input.doc, pos);
    match t.kind {
      case ObjectBegin => ReadMembersIsOrdered(input, t.end, [], "");
      case ArrayBegin =>
        var start := SkipSpaces(input.doc, t.end);
        if At(input.doc, start) != ']' { ReadItemsIsOrdered(input, start, []); }
      case NumberToken => NumberIsOrdered(input, t, current);
      case _ =>
    }
  }

  lemma NumberIsOrdered(input: Input, t: Token, current: Value)
    requires t.start <= t.end <= |input.doc| && IsNumberText(TextOf(input, t)) && Ordered(current)
    ensures Ordered(DecodedNumber(input, t, current).value)
  {
  }

  lemma {:induction false} ReadItemsIsOrdered(input: Input, pos: nat, done: seq<Value>)
    requires pos <= |input.doc| && Ordered(Arr(done))
    ensures Ordered(ReadItems(input, pos, done).value)
    decreases |input.doc| - pos, 1
  {
    hide ReadValue, Recover, SkipComments;
    ReadValueIsOrdered(input, pos, Null);
    assert Ordered(Arr(done + [ReadValue(input, pos, Null).value]));
    hide Ordered;
    var m := ReadOneItem(input, pos, done);
    if m.More? { ReadItemsIsOrdered(input, m.pos, m.items); }
  }

  lemma {:induction false} ReadMembersIsOrdered(input: Input, pos: nat, done: seq<Member>, name: string)
    requires pos <= |input.doc| && Ordered(Obj(done))
    ensures Ordered(ReadMembers(input, pos, done, name).value)
    decreases |input.doc| - pos, 3
  {
    hide ReadValue, Recover, SkipComments, ReadToken, RestOfMember, Ordered;
    var t := SkipComments(input.doc, pos);
    if t.kind == StringToken {
      RestIsOrdered(input, t, done);
      var m := RestOfMember(input, t, done);
      if m.Goes? { ReadMembersIsOrdered(input, m.pos, m.members, m.name); }
    }
  }

  lemma {:induction false} RestIsOrdered(input: Input, t: Token, done: seq<Member>)
    requires t.start + 2 <= t.end <= |input.doc| && Ordered(Obj(done))
    ensures
      var m := RestOfMember(input, t, done);
      Ordered(if m.Goes? then Obj(m.members) else m.result.value)
    decreases |input.doc| - t.end, 1
  {
    hide ReadValue, Recover, SkipComments, ReadToken, Decoded, Store, Lookup, Ordered;
    if Decoded(input, t).Text? {
      var colon := ReadToken(input.doc, t.end);
      if colon.kind == MemberSeparator { StoredIsOrdered(input, colon.end, done, Decoded(input, t).text); }
    }
  }

  lemma {:induction false} StoredIsOrdered(input: Input, pos: nat, done: seq<Member>, s: string)
    requires pos <= |input.doc| && Ordered(Obj(done))
    ensures Ordered(Obj(Store(done, Cut(s), ReadValue(input, pos, Lookup(done, Cut(s))).value)))
    decreases |input.doc| - pos, 1
  {
    hide ReadValue, Store;
    var old_ := Lookup(done, Cut(s));
    assert Ordered(old_) by {
      if Has(done, Cut(s)) { assert done[LowerBound(done, Cut(s))] in done; }
    }
    ReadValueIsOrdered(input, pos, old_);
    StoreFacts(done, Cut(s), ReadValue(input, pos, old_).value);
  }

  // ---------------------------------------------------------------- the document round trip

  /** The tokens from a position to the end of the stream. */
  ghost predicate Ahead(doc: string, pos: nat, toks: seq<Lexeme>) {
    pos <= |doc| && Lex(doc, pos) == toks
  }

  /** The value was read without error, and these tokens come after it. */
  ghost predicate GivesBack(input: Input, r: Parsed, v: Value, rest: seq<Lexeme>) {
    r == Parsed(true, Normal(v), r.pos, []) && Ahead(input.doc, r.pos, rest)
  }

  /** The first of the tokens ahead. */
  lemma NextIs(doc: string, pos: nat, first: Lexeme, rest: seq<Lexeme>)
    requires Ahead(doc, pos, [first] + rest) && first.kind != CommentToken
    ensures
      var t := ReadToken(doc, pos);
      && SkipComments(doc, pos) == t
      && t.kind == first.kind != EndOfStream
      && doc[t.start..t.end] == first.text
      && Ahead(doc, t.end, rest)
  {
    hide ReadToken;
    var t := ReadToken(doc, pos);
    assert Lex(doc, pos)[1..] == rest;
  }

  lemma PeekIsNext(doc: string, pos: nat)
    requires pos <= |doc|
    ensures ReadToken(doc, pos).kind == ArrayEnd <==> At(doc, SkipSpaces(doc, pos)) == ']'
    ensures ReadToken(doc, pos).kind == ArrayEnd ==> ReadToken(doc, pos).end == SkipSpaces(doc, pos) + 1
    ensures ReadToken(doc, SkipSpaces(doc, pos)) == ReadToken(doc, pos)
    ensures forall toks :: Ahead(doc, pos, toks) ==> Ahead(doc, SkipSpaces(doc, pos), toks)
  {
    hide StringEnd, BlockCommentEnd, LineCommentEnd, NumberEnd, WordEnd;
    var s := SkipSpaces(doc, pos);
    assert SkipSpaces(doc, s) == s;
  }

  predicate StartsValue(kind: Kind) {
    kind !in {ArrayEnd, CommentToken, EndOfStream}
  }

  lemma FirstToken(v: Value)
    ensures StartsValue(Toks(v)[0].kind)
  {
  }

  /** Reading the tokens of a value, whatever comes after them, gives the value
    * with its integers re-tagged and stops right after it. */
  lemma {:induction false} ReadsBack(input: Input, pos: nat, v: Value, current: Value, rest: seq<Lexeme>)
    requires RealFree(v) && Ordered(v)
    requires Ahead(input.doc, pos, Toks(v) + rest)
    ensures GivesBack(input, ReadValue(input, pos, current), v, rest)
    decreases v, 1, 0
  {
    match v {
      case Arr(_) => ArrayReadsBack(input, pos, v, current, rest);
      case Obj(_) => ObjectReadsBack(input, pos, v, current, rest);
      case _ => ScalarReadsBack(input, pos, v, current, rest);
    }
  }

  lemma ScalarReadsBack(input: Input, pos: nat, v: Value, current: Value, rest: seq<Lexeme>)
    requires RealFree(v) && !v.Arr? && !v.Obj?
    requires Ahead(input.doc, pos, Toks(v) + rest)
    ensures GivesBack(input, ReadValue(input, pos, current), v, rest)
  {
    assert pos <= |input.doc|;
    var first := Toks(v)[0];
    assert Toks(v) == [first];
    assert Normal(v) == if v.Int? then Retag(v.i) else if v.UInt? then Retag(v.u) else v;
    hide Ahead, SkipComments, ReadToken, Meaning, Decoded, RealFree, Normal, Quote, Decimal;
    NextIs(input.doc, pos, first, rest);
    var t := ReadToken(input.doc, pos);
    if v.Int? || v.UInt? {
      hide ReadValue, GivesBack;
      NumberReadsBack(input, pos, v, current);
    } else if v.Str? {
      hide ReadValue, GivesBack;
      StringReadsBack(input, pos, v, current);
    }
    assert ReadValue(input, pos, current) == Parsed(true, Normal(v), t.end, []);
  }

  lemma NumberReadsBack(input: Input, pos: nat, v: Value, current: Value)
    requires pos <= |input.doc| && (v.Int? || v.UInt?)
    requires
      var t := ReadToken(input.doc, pos);
      SkipComments(input.doc, pos) == t && t.kind == NumberToken && TextOf(input, t) == Decimal(if v.Int? then v.i else v.u)
    ensures
      ReadValue(input, pos, current)
        == Parsed(true, Retag(if v.Int? then v.i else v.u), ReadToken(input.doc, pos).end, [])
  {
    hide SkipComments, ReadToken, Meaning, Decimal;
    IntegerRoundTrip(if v.Int? then v.i else v.u, input.scan);
  }

  lemma StringReadsBack(input: Input, pos: nat, v: Value, current: Value)
    requires pos <= |input.doc| && v.Str?
    requires
      var t := ReadToken(input.doc, pos);
      SkipComments(input.doc, pos) == t && t.kind == StringToken && TextOf(input, t) == Quote(v.s)
    ensures ReadValue(input, pos, current) == Parsed(true, v, ReadToken(input.doc, pos).end, [])
  {
    hide SkipComments, ReadToken, Quote;
    StringDecodes(input, ReadToken(input.doc, pos), v.s);
    hide Decoded, Cut;
  }

  lemma StringDecodes(input: Input, t: Token, s: CString)
    requires t.start + 2 <= t.end <= |input.doc| && TextOf(input, t) == Quote(s)
    ensures Decoded(input, t) == Text(s) && Cut(s) == s
  {
    hide Quote, Unescape, ReadToken;
    assert Occurs(input.doc, t.start, Quote(s));
    LiteralRoundTrip(input.doc, t.start, s);
  }

  lemma {:induction false} ArrayReadsBack(input: Input, pos: nat, v: Value, current: Value, rest: seq<Lexeme>)
    requires v.Arr? && RealFree(v) && Ordered(v)
    requires Ahead(input.doc, pos, Toks(v) + rest)
    ensures GivesBack(input, ReadValue(input, pos, current), v, rest)
    decreases v, 0, |v.items| + 2
  {
    hide Ahead, SkipComments, ReadToken, ReadArray;
    var close := [Lexeme(ArrayEnd, "]")];
    var doc := input.doc;
    assert Toks(v) + rest == [Lexeme(ArrayBegin, "[")] + (ItemsFrom(v, 0) + close + rest);
    NextIs(doc, pos, Lexeme(ArrayBegin, "["), ItemsFrom(v, 0) + close + rest);
    OpenArrayReadsBack(input, ReadToken(doc, pos).end, v, rest);
  }

  lemma {:induction false} OpenArrayReadsBack(input: Input, pos: nat, v: Value, rest: seq<Lexeme>)
    requires v.Arr? && RealFree(v) && Ordered(v)
    requires Ahead(input.doc, pos, ItemsFrom(v, 0) + [Lexeme(ArrayEnd, "]")] + rest)
    ensures GivesBack(input, ReadArray(input, pos), v, rest)
    decreases v, 0, |v.items| + 1
  {
    assert pos <= |input.doc|;
    hide Ahead, SkipComments, ReadToken, RealFree, Ordered, GivesBack;
    PeekIsNext(input.doc, pos);
    if v.items == [] {
      EmptyArrayReadsBack(input, pos, v, rest);
    } else {
      hide ReadItems;
      NotYetClosed(v, pos, input.doc, rest);
      assert NormalItems(v, 0) == [];
      ItemsReadBack(input, SkipSpaces(input.doc, pos), v, 0, rest);
    }
  }

  lemma EmptyArrayReadsBack(input: Input, pos: nat, v: Value, rest: seq<Lexeme>)
    requires v.Arr? && v.items == []
    requires Ahead(input.doc, pos, ItemsFrom(v, 0) + [Lexeme(ArrayEnd, "]")] + rest)
    ensures GivesBack(input, ReadArray(input, pos), v, rest)
  {
    assert pos <= |input.doc|;
    assert ItemsFrom(v, 0) == [];
    assert Normal(v) == Arr([]);
    hide Ahead, SkipComments, ReadToken, ReadArray, Normal, ItemsFrom;
    Trivial<Lexeme>([Lexeme(ArrayEnd, "]")]);
    NextIs(input.doc, pos, Lexeme(ArrayEnd, "]"), rest);
    ClosedAtOnce(input, pos);
  }

  lemma ClosedAtOnce(input: Input, pos: nat)
    requires pos <= |input.doc| && ReadToken(input.doc, pos).kind == ArrayEnd
    ensures ReadArray(input, pos) == Parsed(true, Arr([]), ReadToken(input.doc, pos).end, [])
  {
    hide ReadToken, ReadItems;
    PeekIsNext(input.doc, pos);
  }

  lemma NotYetClosed(v: Value, p: nat, doc: string, rest: seq<Lexeme>)
    requires v.Arr? && v.items != []
    requires Ahead(doc, p, ItemsFrom(v, 0) + [Lexeme(ArrayEnd, "]")] + rest)
    ensures ReadToken(doc, p).kind != ArrayEnd
  {
    var ahead := ItemsFrom(v, 0) + [Lexeme(ArrayEnd, "]")] + rest;
    assert ahead[0] == Toks(v.items[0])[0];
    FirstToken(v.items[0]);
    hide Ahead, ReadToken, Toks, ItemsFrom;
    assert ahead == [ahead[0]] + ahead[1..];
    NextIs(doc, p, ahead[0], ahead[1..]);
  }

  /** The first `k` elements, as they are read. */
  function NormalItems(v: Value, k: nat): (r: seq<Value>)
    requires v.Arr? && k <= |v.items|
    ensures |r| == k
    ensures k == |v.items| ==> Arr(r) == Normal(v)
  {
    seq(k, i requires 0 <= i < k => Normal(v.items[i]))
  }

  lemma {:induction false} ItemsReadBack(input: Input, pos: nat, v: Value, k: nat, rest: seq<Lexeme>)
    requires v.Arr? && k < |v.items| && RealFree(v) && Ordered(v)
    requires Ahead(input.doc, pos, ItemsFrom(v, k) + [Lexeme(ArrayEnd, "]")] + rest)
    ensures GivesBack(input, ReadItems(input, pos, NormalItems(v, k)), v, rest)
    decreases v, 0, |v.items| - k
  {
    var doc, x := input.doc, v.items[k];
    assert x in v.items;
    assert RealFree(x) && Ordered(x);
    var head, tail := ItemsAhead(v, k, rest);
    assert NormalItems(v, k) + [Normal(x)] == NormalItems(v, k + 1);
    hide Ahead, SkipComments, ReadToken, ReadValue, Toks, RealFree, Ordered, ItemsFrom, ReadItems, NormalItems, Normal;
    ReadsBack(input, pos, x, Null, [head] + tail);
    var r := ReadValue(input, pos, Null);
    NextIs(doc, r.pos, head, tail);
    OneItem(input, pos, NormalItems(v, k));
    if k + 1 < |v.items| {
      ItemsReadBack(input, ReadToken(doc, r.pos).end, v, k + 1, rest);
    }
  }

  /** An element that reads without error, when a comma or the closing bracket follows it. */
  lemma OneItem(input: Input, pos: nat, done: seq<Value>)
    requires pos <= |input.doc|
    ensures
      var r := ReadValue(input, pos, Null);
      var next := ReadToken(input.doc, r.pos);
      r.ok && SkipComments(input.doc, r.pos) == next ==>
        && (next.kind == ArrayEnd ==> ReadItems(input, pos, done) == Parsed(true, Arr(done + [r.value]), next.end, []))
        && (next.kind == ArraySeparator ==> ReadItems(input, pos, done) == ReadItems(input, next.end, done + [r.value]))
  {
    hide SkipComments, ReadToken, ReadValue;
  }

  /** The tokens from element `k` on: the element, what separates it, and the rest. */
  lemma ItemsAhead(v: Value, k: nat, rest: seq<Lexeme>) returns (head: Lexeme, tail: seq<Lexeme>)
    requires v.Arr? && k < |v.items|
    ensures ItemsFrom(v, k) + [Lexeme(ArrayEnd, "]")] + rest == Toks(v.items[k]) + ([head] + tail)
    ensures k + 1 == |v.items| ==> head == Lexeme(ArrayEnd, "]") && tail == rest
    ensures k + 1 < |v.items| ==> head == COMMA && tail == ItemsFrom(v, k + 1) + [Lexeme(ArrayEnd, "]")] + rest
  {
    var last := k + 1 == |v.items|;
    head := if last then Lexeme(ArrayEnd, "]") else COMMA;
    tail := if last then rest else ItemsFrom(v, k + 1) + [Lexeme(ArrayEnd, "]")] + rest;
    hide Toks;
  }

  lemma MembersAhead(v: Value, k: nat, rest: seq<Lexeme>) returns (head: Lexeme, tail: seq<Lexeme>)
    requires v.Obj? && k < |v.members|
    ensures MembersFrom(v, k) + [Lexeme(ObjectEnd, "}")] + rest == MemberToks(v.members[k]) + ([head] + tail)
    ensures k + 1 == |v.members| ==> head == Lexeme(ObjectEnd, "}") && tail == rest
    ensures k + 1 < |v.members| ==> head == COMMA && tail == MembersFrom(v, k + 1) + [Lexeme(ObjectEnd, "}")] + rest
  {
    var last := k + 1 == |v.members|;
    head := if last then Lexeme(ObjectEnd, "}") else COMMA;
    tail := if last then rest else MembersFrom(v, k + 1) + [Lexeme(ObjectEnd, "}")] + rest;
    hide Toks, MemberToks;
  }

  lemma {:induction false} ObjectReadsBack(input: Input, pos: nat, v: Value, current: Value, rest: seq<Lexeme>)
    requires v.Obj? && RealFree(v) && Ordered(v)
    requires Ahead(input.doc, pos, Toks(v) + rest)
    ensures GivesBack(input, ReadValue(input, pos, current), v, rest)
    decreases v, 0, |v.members| + 1
  {
    hide Ahead, SkipComments, ReadToken;
    var close := [Lexeme(ObjectEnd, "}")];
    var doc := input.doc;
    assert Toks(v) + rest == [Lexeme(ObjectBegin, "{")] + (MembersFrom(v, 0) + close + rest);
    NextIs(doc, pos, Lexeme(ObjectBegin, "{"), MembersFrom(v, 0) + close + rest);
    var p := ReadToken(doc, pos).end;
    if v.members == [] {
      assert MembersFrom(v, 0) + close + rest == [close[0]] + rest;
      NextIs(doc, p, close[0], rest);
      assert Normal(v) == Obj([]);
    } else {
      hide ReadMembers;
      assert NormalMembers(v, 0) == [];
      MembersReadBack(input, p, v, 0, "", rest);
    }
  }

  /** The first `k` members, as they are read. */
  function NormalMembers(v: Value, k: nat): (r: seq<Member>)
    requires v.Obj? && k <= |v.members|
    ensures |r| == k
    ensures forall i :: 0 <= i < k ==> r[i] == Member(v.members[i].name, Normal(v.members[i].value))
    ensures k == |v.members| ==> Obj(r) == Normal(v)
  {
    seq(k, i requires 0 <= i < k => Member(v.members[i].name, Normal(v.members[i].value)))
  }

  lemma {:induction false} MembersReadBack(input: Input, pos: nat, v: Value, k: nat, name: string, rest: seq<Lexeme>)
    requires v.Obj? && k < |v.members| && RealFree(v) && Ordered(v)
    requires Ahead(input.doc, pos, MembersFrom(v, k) + [Lexeme(ObjectEnd, "}")] + rest)
    ensures GivesBack(input, ReadMembers(input, pos, NormalMembers(v, k), name), v, rest)
    decreases v, 0, |v.members| - k
  {
    var doc, m := input.doc, v.members[k];
    assert m in v.members;
    assert RealFree(m.value) && Ordered(m.value);
    MemberIsAppended(v, k);
    var head, tail := MembersAhead(v, k, rest);
    hide Ahead, SkipComments, ReadToken, ReadValue, Toks, RealFree, Ordered, Store, Lookup, Decoded, Quote;
    hide MembersFrom, MemberToks, Normal, ReadMembers, NormalMembers, Cut;
    var colon := ReadToken(doc, ReadToken(doc, pos).end);
    NameReadsBack(input, pos, m, [head] + tail);
    ReadsBack(input, colon.end, m.value, Null, [head] + tail);
    var r := ReadValue(input, colon.end, Null);
    NextIs(doc, r.pos, head, tail);
    OneMember(input, pos, NormalMembers(v, k), name, m.name);
    if k + 1 < |v.members| {
      MembersReadBack(input, ReadToken(doc, r.pos).end, v, k + 1, m.name, rest);
    }
  }

  /** A member that reads without error, when a comma or the closing brace follows it. */
  lemma OneMember(input: Input, pos: nat, done: seq<Member>, name: string, key: CString)
    requires pos <= |input.doc| && Cut(key) == key
    requires
      var t := ReadToken(input.doc, pos);
      SkipComments(input.doc, pos) == t && t.kind == StringToken && Decoded(input, t) == Text(key)
    requires ReadToken(input.doc, ReadToken(input.doc, pos).end).kind == MemberSeparator
    ensures
      var colon := ReadToken(input.doc, ReadToken(input.doc, pos).end);
      var r := ReadValue(input, colon.end, Lookup(done, key));
      var next := ReadToken(input.doc, r.pos);
      var members := Store(done, key, r.value);
      && (r.ok && next.kind == ObjectEnd ==>
            ReadMembers(input, pos, done, name) == Parsed(true, Obj(members), next.end, []))
      && (r.ok && next.kind == ArraySeparator ==>
            ReadMembers(input, pos, done, name) == ReadMembers(input, next.end, members, key))
  {
    hide Ahead, SkipComments, ReadToken, ReadValue, Store, Lookup, Decoded, Cut;
  }

  lemma NameReadsBack(input: Input, pos: nat, m: Member, after: seq<Lexeme>)
    requires Ahead(input.doc, pos, MemberToks(m) + after)
    ensures
      var t := ReadToken(input.doc, pos);
      var colon := ReadToken(input.doc, t.end);
      && SkipComments(input.doc, pos) == t && t.kind == StringToken
      && Decoded(input, t) == Text(m.name) && Cut(m.name) == m.name
      && colon.kind == MemberSeparator && Ahead(input.doc, colon.end, Toks(m.value) + after)
  {
    hide Ahead, SkipComments, ReadToken, Toks, Decoded, Quote;
    var name := Lexeme(StringToken, Quote(m.name));
    assert MemberToks(m) + after == [name] + ([COLON] + (Toks(m.value) + after));
    NextIs(input.doc, pos, name, [COLON] + (Toks(m.value) + after));
    var t := ReadToken(input.doc, pos);
    StringDecodes(input, t, m.name);
    NextIs(input.doc, t.end, COLON, Toks(m.value) + after);
  }

  lemma MemberIsAppended(v: Value, k: nat)
    requires v.Obj? && k < |v.members| && Ordered(v)
    ensures Lookup(NormalMembers(v, k), v.members[k].name) == Null
    ensures Store(NormalMembers(v, k), v.members[k].name, Normal(v.members[k].value)) == NormalMembers(v, k + 1)
  {
    hide Store, Lookup;
    var done := NormalMembers(v, k);
    forall m | m in done ensures Less(m.name, v.members[k].name) {
      var i :| 0 <= i < k && done[i] == m;
    }
    StoreLast(done, v.members[k].name, Normal(v.members[k].value));
  }
}
