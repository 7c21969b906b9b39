/** The one error of a failed parse: it names a token of the document that is
  * not what the message asks for, and in a literal the byte that went wrong.
  * What had been read before it stays. */
module JsonErrors {
  import opened CStrings
  import opened JsonLexing
  import opened JsonStrings
  import opened JsonNumbers
  import opened JsonValues
  import opened JsonGrammar

  /** The error of a literal's body, and the place that the reader names. */
  predicate WentWrong(body: string, message: Message, at: nat) {
    at <= |body| && match message
    case EmptyEscape => at == |body| > 0 && body[at - 1] == '\\'
    case BadEscape => at >= 2 && body[at - 2] == '\\' && body[at - 1] !in ['"', '/', '\\', 'b', 'f', 'n', 'r', 't', 'u']
    case FourDigitsExpected => |body| - at < 4 && at >= 2 && body[at - 2] == '\\' && body[at - 1] == 'u'
    case HexDigitExpected => at >= 1 && !IsHexDigit(body[at - 1])
    case SixMoreExpected => |body| - at < 6 && at >= 4 && IsHexDigit(body[at - 1])
    case SecondHalfExpected =>
      || (at >= 2 && IsHexDigit(body[at - 2]) && body[at - 1] != '\\')
      || (at >= 3 && IsHexDigit(body[at - 3]) && body[at - 2] == '\\' && body[at - 1] != 'u')
    case _ => false
  }

  lemma CodePointWentWrong(body: string, i: nat)
    requires 2 <= i <= |body| && body[i - 2] == '\\' && body[i - 1] == 'u' && CodePoint(body, i).Unreadable?
    ensures WentWrong(body, CodePoint(body, i).message, CodePoint(body, i).at)
  {
    hide EscapeSequence, IsHex4, IsHexDigit;
    EscapeSequenceIsExact(body, i);
    var first := EscapeSequence(body, i);
    if first.Code? {
      if |body| - first.next >= 2 && body[first.next] == '\\' && body[first.next + 1] == 'u' {
        EscapeSequenceIsExact(body, first.next + 2);
      }
      LastIsHex(body[i..i + 4], first.code);
    }
  }

  lemma LastIsHex(h: string, n: nat)
    requires IsHex4(h, n)
    ensures IsHexDigit(h[3])
  {
  }

  lemma {:induction false} UnescapeWentWrong(body: string, i: nat, done: string)
    requires i <= |body| && Unescape(body, i, done).Bad?
    ensures WentWrong(body, Unescape(body, i, done).message, Unescape(body, i, done).at)
    decreases |body| - i
  {
    hide CodePoint, WentWrong, CodePointToUtf8;
    if body[i] != '\\' {
      UnescapeWentWrong(body, i + 1, done + [body[i]]);
    } else if i + 1 == |body| {
      EndsInBackslash(body);
    } else if Simple(body[i + 1]) != NUL {
      UnescapeWentWrong(body, i + 2, done + [Simple(body[i + 1])]);
    } else if body[i + 1] == 'u' {
      if CodePoint(body, i + 2).Unreadable? {
        CodePointWentWrong(body, i + 2);
      } else {
        var r := CodePoint(body, i + 2);
        UnescapeWentWrong(body, r.next, done + CodePointToUtf8(r.code));
      }
    } else {
      UnknownEscape(body, i);
    }
  }

  lemma EndsInBackslash(body: string)
    requires body != "" && body[|body| - 1] == '\\'
    ensures WentWrong(body, EmptyEscape, |body|)
  {
  }

  lemma UnknownEscape(body: string, i: nat)
    requires i + 2 <= |body| && body[i] == '\\' && Simple(body[i + 1]) == NUL && body[i + 1] != 'u'
    ensures WentWrong(body, BadEscape, i + 2)
  {
  }

  predicate StartsAValue(kind: Kind) {
    kind in {ObjectBegin, ArrayBegin, StringToken, NumberToken, TrueToken, FalseToken, NullToken}
  }

  /** The error is about a token of the document, for a reason one can check. */
  predicate Blames(input: Input, e: Error) {
    var t := e.token;
    t.start <= t.end <= |input.doc| && ReadToken(input.doc, t.start) == t && match e.message
    case ValueExpected => !StartsAValue(t.kind) && t.kind != CommentToken && e.extra == Nowhere
    case ItemEndExpected => t.kind !in {ArraySeparator, ArrayEnd, CommentToken} && e.extra == Nowhere
    case ColonExpected => t.kind != MemberSeparator && e.extra == Nowhere
    case MemberEndExpected => t.kind !in {ArraySeparator, ObjectEnd, CommentToken} && e.extra == Nowhere
    case NameExpected => t.kind !in {StringToken, CommentToken} && e.extra == Nowhere
    case NotANumber(text) =>
      && t.kind == NumberToken && text == TextOf(input, t) && !input.scan(text) && e.extra == Nowhere
      && IsNumberText(text) && ReadsAs(text, input.scan, Number.NotANumber)
    case message =>
      && t.kind == StringToken && t.start + 2 <= t.end && e.extra.AtPos? && e.extra.pos > t.start
      && WentWrong(input.doc[t.start + 1..t.end - 1], message, e.extra.pos - t.start - 1)
  }

  ghost predicate AllJust(input: Input, errors: seq<Error>) {
    forall e <- errors :: Blames(input, e)
  }

  lemma {:induction false} SkippedIsToken(doc: string, pos: nat)
    requires pos <= |doc|
    ensures ReadToken(doc, SkipComments(doc, pos).start) == SkipComments(doc, pos)
    decreases |doc| - pos
  {
    SameAfterSpaces(doc, pos);
    hide ReadToken;
    if ReadToken(doc, pos).kind == CommentToken { SkippedIsToken(doc, ReadToken(doc, pos).end); }
  }

  lemma NumberErrorIsJust(input: Input, t: Token, current: Value)
    requires t.start <= t.end <= |input.doc| && ReadToken(input.doc, t.start) == t && t.kind == NumberToken
    requires IsNumberText(TextOf(input, t))
    ensures AllJust(input, DecodedNumber(input, t, current).errors)
  {
    hide ReadToken, ReadsAs;
    MeaningIsExact(TextOf(input, t), input.scan, Meaning(TextOf(input, t), input.scan));
  }

  lemma StringErrorIsJust(input: Input, t: Token)
    requires t.start + 2 <= t.end <= |input.doc| && ReadToken(input.doc, t.start) == t && t.kind == StringToken
    requires Decoded(input, t).Bad?
    ensures Blames(input, DecodeError(t, Decoded(input, t)))
  {
    hide ReadToken, Unescape;
    UnescapeWentWrong(input.doc[t.start + 1..t.end - 1], 0, "");
  }

  /** On every document, at every depth, a failed read blames a token justly. */
  lemma {:induction false} ErrorsAreJust(input: Input, pos: nat, current: Value)
    requires pos <= |input.doc|
    ensures AllJust(input, ReadValue(input, pos, current).errors)
    decreases |input.doc| - pos, 0, 0
  {
    hide Decoded, DecodedNumber, ReadToken, SkipComments, ReadArray, ReadMembers, DecodeError;
    var t := SkipComments(input.doc, pos);
    SkippedIsToken(input.doc, pos);
    if t.kind == ObjectBegin {
      MemberErrorsAreJust(input, t.end, [], "");
    } else if t.kind == ArrayBegin {
      ArrayErrorsAreJust(input, t.end);
    } else if t.kind == NumberToken {
      NumberErrorIsJust(input, t, current);
    } else if t.kind == StringToken {
      if Decoded(input, t).Bad? { StringErrorIsJust(input, t); }
    }
  }

  lemma {:induction false} ArrayErrorsAreJust(input: Input, pos: nat)
    requires pos <= |input.doc|
    ensures AllJust(input, ReadArray(input, pos).errors)
    decreases |input.doc| - pos, 2
  {
    hide SkipSpaces, ReadItems, Blames;
    var start := SkipSpaces(input.doc, pos);
    if At(input.doc, start) != ']' { ItemErrorsAreJust(input, start, []); }
  }

  lemma {:induction false} ItemErrorsAreJust(input: Input, pos: nat, done: seq<Value>)
    requires pos <= |input.doc|
    ensures AllJust(input, ReadItems(input, pos, done).errors)
    decreases |input.doc| - pos, 1
  {
    hide ReadValue, Recover, SkipComments, ReadToken;
    ErrorsAreJust(input, pos, Null);
    var r := ReadValue(input, pos, Null);
    SkippedIsToken(input.doc, r.pos);
    var m := ReadOneItem(input, pos, done);
    if m.More? { ItemErrorsAreJust(input, m.pos, m.items); }
  }

  lemma {:induction false} MemberErrorsAreJust(input: Input, pos: nat, done: seq<Member>, name: string)
    requires pos <= |input.doc|
    ensures AllJust(input, ReadMembers(input, pos, done, name).errors)
    decreases |input.doc| - pos, 3
  {
    hide RestOfMember, Recover, SkipComments, ReadToken;
    var t := SkipComments(input.doc, pos);
    SkippedIsToken(input.doc, pos);
    if t.kind == StringToken {
      RestErrorsAreJust(input, t, done);
      var m := RestOfMember(input, t, done);
      if m.Goes? { MemberErrorsAreJust(input, m.pos, m.members, m.name); }
    }
  }

  lemma {:induction false} RestErrorsAreJust(input: Input, t: Token, done: seq<Member>)
    requires t.start + 2 <= t.end <= |input.doc| && ReadToken(input.doc, t.start) == t && t.kind == StringToken
    ensures RestOfMember(input, t, done).Done? ==> AllJust(input, RestOfMember(input, t, done).result.errors)
    decreases |input.doc| - t.end, 1
  {
    hide ReadValue, Recover, SkipComments, ReadToken, Decoded, DecodeError, Store, Lookup;
    if Decoded(input, t).Bad? {
      StringErrorIsJust(input, t);
    } else {
      var colon := ReadToken(input.doc, t.end);
      SameAfterSpaces(input.doc, t.end);
      if colon.kind == MemberSeparator {
        var old_ := Lookup(done, Cut(Decoded(input, t).text));
        ErrorsAreJust(input, colon.end, old_);
        SameAfterSpaces(input.doc, ReadValue(input, colon.end, old_).pos);
      }
    }
  }

  // ---------------------------------------------------------------- what stays

  /** A value that is no array and no object and cannot be read leaves its place as it was. */
  lemma FailedValueStays(input: Input, pos: nat, current: Value)
    requires pos <= |input.doc| && !ReadValue(input, pos, current).ok
    requires SkipComments(input.doc, pos).kind != ObjectBegin && SkipComments(input.doc, pos).kind != ArrayBegin
    ensures ReadValue(input, pos, current).value == current
  {
    hide SkipComments, Decoded, Meaning;
  }

  /** So a member that is there already survives when its name comes again with such a value. */
  lemma FailedMemberStays(input: Input, t: Token, done: seq<Member>)
    requires t.start + 2 <= t.end <= |input.doc| && Decoded(input, t).Text? && Has(done, Cut(Decoded(input, t).text))
    requires ReadToken(input.doc, t.end).kind == MemberSeparator
    requires
      var pos, name := ReadToken(input.doc, t.end).end, Cut(Decoded(input, t).text);
      && !ReadValue(input, pos, Lookup(done, name)).ok
      && SkipComments(input.doc, pos).kind != ObjectBegin && SkipComments(input.doc, pos).kind != ArrayBegin
    ensures RestOfMember(input, t, done).Done? && RestOfMember(input, t, done).result.value == Obj(done)
  {
    hide ReadValue, Recover, SkipComments, ReadToken, Decoded, LowerBound;
    var pos, name := ReadToken(input.doc, t.end).end, Cut(Decoded(input, t).text);
    FailedValueStays(input, pos, Lookup(done, name));
    var k := LowerBound(done, name);
    assert done[k := Member(name, done[k].value)] == done;
  }
}
