/** The reader: a cursor over the document, a list of errors, and a stack with
  * the value being read on top. */
module JsonReader {
  import opened CStrings
  import opened JsonLexing
  import opened JsonStrings
  import opened JsonNumbers
  import opened JsonValues
  import opened JsonGrammar
  import JsonSyntax
  import JsonAcceptance

  class Reader {
    const scan: string -> bool
    var document: string
    var current: nat
    var errors: seq<Error>
    var nodes: seq<Value>

    constructor (scan: string -> bool)
      ensures this.scan == scan
    {
      this.scan := scan;
      document, current, errors, nodes := "", 0, [], [];
    }

    ghost predicate Valid()
      reads this
    {
      current <= |document|
    }

    ghost function In(): Input
      reads this
    {
      Input(document, scan)
    }

    /** Reads one document into `root`, and succeeds exactly when the document
      * begins with a legal tree. What follows the first value is not looked at. */
    method Parse(text: string, root: Value) returns (successful: bool, value: Value)
      modifies this
      ensures Valid() && document == text && |nodes| == 1
      ensures
        var r := JsonGrammar.ReadValue(Input(text, scan), 0, root);
        successful == r.ok && value == r.value && errors == r.errors
      ensures |errors| == if successful then 0 else 1
      ensures successful <==> exists tree, end :: JsonSyntax.Spells(text, scan, 0, tree, end)
      ensures forall tree, end | JsonSyntax.Spells(text, scan, 0, tree, end) :: value == JsonSyntax.ValueOf(tree, scan)
    {
      hide JsonGrammar.ReadValue, JsonSyntax.Legal, JsonSyntax.Words, JsonSyntax.ValueOf, Cuts;
      JsonAcceptance.ReadsExactlyTrees(Input(text, scan), 0, root);
      document := text;
      current := 0;
      errors := [];
      nodes := [root];
      successful := ReadValue();
      var _ := SkipCommentTokens();
      value := nodes[0];
    }

    // -------------------------------------------------------------- the cursor

    method GetNextChar() returns (c: char)
      requires Valid()
      modifies this`current
      ensures Valid()
      ensures c == At(document, old(current))
      ensures current == if old(current) == |document| then old(current) else old(current) + 1
    {
      if current == |document| { return NUL; }
      c := document[current];
      current := current + 1;
    }

    method SkipSpaces()
      requires Valid()
      modifies this`current
      ensures Valid() && current == JsonLexing.SkipSpaces(document, old(current))
    {
      while current != |document|
        invariant Valid()
        invariant JsonLexing.SkipSpaces(document, current) == JsonLexing.SkipSpaces(document, old(current))
        decreases |document| - current
      {
        var c := document[current];
        if c == ' ' || c == '\t' || c == '\r' || c == '\n' {
          current := current + 1;
        } else {
          break;
        }
      }
    }

    method Match(pattern: string) returns (ok: bool)
      requires Valid()
      modifies this`current
      ensures Valid() && Ending(current, ok) == WordEnd(document, old(current), pattern)
    {
      if |document| - current < |pattern| { return false; }
      var index := |pattern|;
      while index > 0
        invariant 0 <= index <= |pattern|
        invariant forall k :: index <= k < |pattern| ==> document[current + k] == pattern[k]
      {
        index := index - 1;
        if document[current + index] != pattern[index] {
          assert document[current..current + |pattern|][index] != pattern[index];
          return false;
        }
      }
      assert document[current..current + |pattern|] == pattern;
      current := current + |pattern|;
      return true;
    }

    method ReadNumber()
      requires Valid()
      modifies this`current
      ensures Valid() && current == NumberEnd(document, old(current))
    {
      while current != |document|
        invariant Valid()
        invariant NumberEnd(document, current) == NumberEnd(document, old(current))
        decreases |document| - current
      {
        if !IsNumberChar(document[current]) { break; }
        current := current + 1;
      }
    }

    method ReadString() returns (ok: bool)
      requires Valid()
      modifies this`current
      ensures Valid() && Ending(current, ok) == StringEnd(document, old(current))
    {
      var c := NUL;
      while current != |document|
        invariant Valid() && c != '"'
        invariant StringEnd(document, current) == StringEnd(document, old(current))
        decreases |document| - current
      {
        c := GetNextChar();
        if c == '\\' {
          var _ := GetNextChar();
        } else if c == '"' {
          break;
        }
      }
      return c == '"';
    }

    method ReadCStyleComment() returns (ok: bool)
      requires Valid()
      modifies this`current
      ensures Valid() && Ending(current, ok) == BlockCommentEnd(document, old(current))
    {
      while current != |document|
        invariant Valid()
        invariant BlockCommentEnd(document, current) == BlockCommentEnd(document, old(current))
        decreases |document| - current
      {
        ghost var before := current;
        var c := GetNextChar();
        if c == '*' && At(document, current) == '/' {
          assert BlockCommentEnd(document, before) == Ending(before + 2, true);
          break;
        }
      }
      var c := GetNextChar();
      return c == '/';
    }

    method ReadCppStyleComment()
      requires Valid()
      modifies this`current
      ensures Valid() && current == LineCommentEnd(document, old(current))
    {
      while current != |document|
        invariant Valid()
        invariant LineCommentEnd(document, current) == LineCommentEnd(document, old(current))
        decreases |document| - current
      {
        var c := GetNextChar();
        if c == '\r' || c == '\n' { return; }
      }
    }

    /** The slash has been read; the comment itself is not kept. */
    method ReadComment() returns (ok: bool)
      requires Valid()
      modifies this`current
      ensures Valid() && Ending(current, ok) == CommentEnd(document, old(current))
    {
      var c := GetNextChar();
      ok := false;
      if c == '*' {
        ok := ReadCStyleComment();
      } else if c == '/' {
        ReadCppStyleComment();
        ok := true;
      }
    }

    method ReadToken() returns (token: Token)
      requires Valid()
      modifies this`current
      ensures Valid() && token == JsonLexing.ReadToken(document, old(current)) && current == token.end
    {
      SkipSpaces();
      var start := current;
      var c := GetNextChar();
      var ok, kind := true, ErrorToken;
      match c {
        case '{' => kind := ObjectBegin;
        case '}' => kind := ObjectEnd;
        case '[' => kind := ArrayBegin;
        case ']' => kind := ArrayEnd;
        case '"' => kind := StringToken; ok := ReadString();
        case '/' => kind := CommentToken; ok := ReadComment();
        case 't' => kind := TrueToken; ok := Match("rue");
        case 'f' => kind := FalseToken; ok := Match("alse");
        case 'n' => kind := NullToken; ok := Match("ull");
        case ',' => kind := ArraySeparator;
        case ':' => kind := MemberSeparator;
        case '\0' => kind := EndOfStream;
        case _ =>
          if IsDigit(c) || c == '-' {
            kind := NumberToken;
            ReadNumber();
          } else {
            ok := false;
          }
      }
      if !ok { kind := ErrorToken; }
      token := Token(kind, start, current);
    }

    method SkipCommentTokens() returns (token: Token)
      requires Valid()
      modifies this`current
      ensures Valid() && token == SkipComments(document, old(current)) && current == token.end
    {
      token := ReadToken();
      while token.kind == CommentToken
        invariant Valid() && current == token.end
        invariant SkipComments(document, old(current))
          == if token.kind == CommentToken then SkipComments(document, token.end) else token
        decreases |document| - current, token.kind == CommentToken
      {
        token := ReadToken();
      }
    }

    // -------------------------------------------------------------- errors

    method AddError(message: Message, token: Token, extra: Place) returns (ok: bool)
      modifies this`errors
      ensures !ok && errors == old(errors) + [Error(message, token, extra)]
    {
      errors := errors + [Error(message, token, extra)];
      return false;
    }

    /** Skips to a token of the given kind, keeping the errors as they are. */
    method RecoverFromError(skipUntil: Kind) returns (ok: bool)
      requires Valid()
      modifies this`current, this`errors
      ensures !ok && Valid() && current == Recover(document, old(current), skipUntil)
      ensures errors == old(errors)
    {
      var errorCount := |errors|;
      while true
        invariant Valid() && errors == old(errors)
        invariant Recover(document, current, skipUntil) == Recover(document, old(current), skipUntil)
        decreases |document| - current
      {
        var skip := ReadToken();
        if skip.kind == skipUntil || skip.kind == EndOfStream { break; }
      }
      errors := errors[..errorCount];
      return false;
    }

    method AddErrorAndRecover(message: Message, token: Token, skipUntil: Kind) returns (ok: bool)
      requires Valid()
      modifies this`current, this`errors
      ensures !ok && Valid() && current == Recover(document, old(current), skipUntil)
      ensures errors == old(errors) + [Error(message, token, Nowhere)]
    {
      var _ := AddError(message, token, Nowhere);
      ok := RecoverFromError(skipUntil);
    }

    // -------------------------------------------------------------- strings and numbers

    /** The decoders report an error as a result; it is recorded here. */
    method DecodeString(token: Token) returns (ok: bool, decoded: string)
      requires token.start + 2 <= token.end <= |document|
      modifies this`errors
      ensures ok ==> Decoded(In(), token) == Text(decoded) && errors == old(errors)
      ensures !ok ==> Decoded(In(), token).Bad?
      ensures !ok ==> errors == old(errors) + [DecodeError(token, Decoded(In(), token))]
    {
      var r := DecodeBody(document[token.start + 1..token.end - 1]);
      if r.Bad? {
        ok := AddError(r.message, token, AtPos(token.start + 1 + r.at));
        decoded := "";
      } else {
        ok, decoded := true, r.text;
      }
    }

    /** Stores the number in the current value. */
    method DecodeNumber(token: Token) returns (ok: bool)
      requires token.start <= token.end <= |document| && IsNumberText(TextOf(In(), token)) && nodes != []
      modifies this`errors, this`nodes
      ensures
        var r := DecodedNumber(In(), token, old(Top()));
        ok == r.ok && errors == old(errors) + r.errors && nodes == old(nodes)[..|old(nodes)| - 1] + [r.value]
    {
      var text := document[token.start..token.end];
      var number := JsonNumbers.DecodeNumber(text, scan);
      ok := true;
      match number {
        case Signed(i) => SetCurrentValue(Int(i));
        case Unsigned(u) => SetCurrentValue(UInt(u));
        case Double(d) => SetCurrentValue(Real(d));
        case NotANumber => ok := AddError(Message.NotANumber(text), token, Nowhere);
      }
    }

    // -------------------------------------------------------------- the value stack

    function Top(): Value
      requires nodes != []
      reads this
    {
      nodes[|nodes| - 1]
    }

    method SetCurrentValue(value: Value)
      requires nodes != []
      modifies this`nodes
      ensures nodes == old(nodes)[..|old(nodes)| - 1] + [value]
    {
      nodes := nodes[..|nodes| - 1] + [value];
    }

    method Push(value: Value)
      modifies this`nodes
      ensures nodes == old(nodes) + [value]
    {
      nodes := nodes + [value];
    }

    method Pop() returns (value: Value)
      requires nodes != []
      modifies this`nodes
      ensures old(nodes) == nodes + [value]
    {
      value := nodes[|nodes| - 1];
      nodes := nodes[..|nodes| - 1];
    }

    // -------------------------------------------------------------- values

    /** Replaces the top of the stack and adds errors as the grammar says; the
      * rest of the stack is as before. */
    twostate predicate Did(r: Parsed, ok: bool)
      reads this
    {
      && ok == r.ok && current == r.pos
      && document == old(document)
      && errors == old(errors) + r.errors
      && old(nodes) != [] && nodes == old(nodes)[..|old(nodes)| - 1] + [r.value]
    }

    method ReadValue() returns (successful: bool)
      requires Valid() && nodes != []
      modifies this`current, this`errors, this`nodes
      ensures Valid()
      ensures Did(JsonGrammar.ReadValue(old(In()), old(current), old(Top())), successful)
      decreases |document| - current, 0
    {
      hide SkipComments, Unescape, Meaning, JsonGrammar.ReadArray, ReadMembers, IsNumberText;
      var token := SkipCommentTokens();
      successful := true;
      var kind := token.kind;
      if kind == ObjectBegin {
        successful := ReadObject();
      } else if kind == ArrayBegin {
        successful := ReadArray();
      } else if kind == NumberToken {
        successful := DecodeNumber(token);
      } else if kind == StringToken {
        var decoded;
        successful, decoded := DecodeString(token);
        if successful { SetCurrentValue(Str(Cut(decoded))); }
      } else if kind == TrueToken {
        SetCurrentValue(Bool(true));
      } else if kind == FalseToken {
        SetCurrentValue(Bool(false));
      } else if kind == NullToken {
        SetCurrentValue(Null);
      } else {
        successful := AddError(ValueExpected, token, Nowhere);
      }
    }

    /** Reads a value into a new element. */
    method ReadItem(items: seq<Value>) returns (ok: bool, after: seq<Value>)
      requires Valid() && nodes != [] && Top() == Arr(items)
      modifies this`current, this`errors, this`nodes
      ensures Valid()
      ensures
        var r := JsonGrammar.ReadValue(old(In()), old(current), Null);
        && ok == r.ok && current == r.pos && errors == old(errors) + r.errors
        && after == items + [r.value]
        && nodes == old(nodes)[..|old(nodes)| - 1] + [Arr(after)]
      decreases |document| - current, 1, 0
    {
      hide JsonGrammar.ReadValue;
      ghost var r := JsonGrammar.ReadValue(In(), current, Null);
      Push(Null);
      ok := ReadValue();
      var value := Pop();
      assert nodes + [value] == old(nodes) + [r.value];
      assert value == (nodes + [value])[|old(nodes)|] && nodes == (nodes + [value])[..|old(nodes)|];
      after := items + [value];
      SetCurrentValue(Arr(after));
    }

    /** One element and the token after it; `more` says that the array goes on. */
    method ReadOneItem(items: seq<Value>) returns (ok: bool, more: bool, after: seq<Value>)
      requires Valid() && nodes != [] && Top() == Arr(items)
      modifies this`current, this`errors, this`nodes
      ensures Valid()
      ensures
        var r := JsonGrammar.ReadOneItem(old(In()), old(current), items);
        && more == r.More?
        && nodes == old(nodes)[..|old(nodes)| - 1] + [Arr(after)]
        && (more ==> current == r.pos && errors == old(errors) && after == r.items)
        && (!more ==> (ok == r.result.ok && current == r.result.pos && errors == old(errors) + r.result.errors
              && Arr(after) == r.result.value))
      decreases |document| - current, 1, 1
    {
      hide JsonGrammar.ReadValue, JsonLexing.ReadToken, SkipComments, Recover;
      more := false;
      ok, after := ReadItem(items);
      if !ok {
        ok := RecoverFromError(ArrayEnd);
        return;
      }
      var token := SkipCommentTokens();
      if token.kind != ArraySeparator && token.kind != ArrayEnd {
        ok := AddErrorAndRecover(ItemEndExpected, token, ArrayEnd);
        return;
      }
      more := token.kind != ArrayEnd;
    }

    /** The opening bracket has been read. */
    method ReadArray() returns (ok: bool)
      requires Valid() && nodes != []
      modifies this`current, this`errors, this`nodes
      ensures Valid()
      ensures Did(JsonGrammar.ReadArray(old(In()), old(current)), ok)
      decreases |document| - current, 2
    {
      hide JsonGrammar.ReadOneItem, JsonLexing.SkipSpaces, JsonLexing.ReadToken;
      ghost var input, below, start := In(), nodes[..|nodes| - 1], current;
      SetCurrentValue(Arr([]));
      SkipSpaces();
      PeekIsNext(document, current);
      SkippedOnce(document, start);
      if At(document, current) == ']' {
        var _ := ReadToken();
        return true;
      }
      ghost var result := ReadItems(input, current, []);
      assert result == JsonGrammar.ReadArray(input, start);
      hide JsonGrammar.ReadArray;
      var items := [];
      while true
        invariant Valid() && In() == input && errors == old(errors) && nodes == below + [Arr(items)]
        invariant start <= current && ReadItems(input, current, items) == result
        decreases |document| - current
      {
        var more;
        ok, more, items := ReadOneItem(items);
        if !more { return; }
      }
    }

    lemma SkippedOnce(doc: string, pos: nat)
      requires pos <= |doc|
      ensures
        var s := JsonLexing.SkipSpaces(doc, pos);
        JsonLexing.SkipSpaces(doc, s) == s
    {
    }

    /** Reads a value into the member with this name, which may be there already. */
    method ReadMember(members: seq<Member>, name: CString) returns (ok: bool, after: seq<Member>)
      requires Valid() && nodes != [] && Top() == Obj(members)
      modifies this`current, this`errors, this`nodes
      ensures Valid()
      ensures
        var r := JsonGrammar.ReadValue(old(In()), old(current), Lookup(members, name));
        && ok == r.ok && current == r.pos && errors == old(errors) + r.errors
        && after == Store(members, name, r.value)
        && nodes == old(nodes)[..|old(nodes)| - 1] + [Obj(after)]
      decreases |document| - current, 1
    {
      hide JsonGrammar.ReadValue, Store, Lookup;
      ghost var r := JsonGrammar.ReadValue(In(), current, Lookup(members, name));
      Push(Lookup(members, name));
      ok := ReadValue();
      var value := Pop();
      assert nodes + [value] == old(nodes) + [r.value];
      assert value == (nodes + [value])[|old(nodes)|] && nodes == (nodes + [value])[..|old(nodes)|];
      after := Store(members, name, value);
      SetCurrentValue(Obj(after));
    }

    /** The opening brace has been read. */
    method ReadObject() returns (ok: bool)
      requires Valid() && nodes != []
      modifies this`current, this`errors, this`nodes
      ensures Valid()
      ensures Did(ReadMembers(old(In()), old(current), [], ""), ok)
      decreases |document| - current, 2
    {
      hide JsonGrammar.ReadValue, JsonLexing.ReadToken, SkipComments, Recover, Unescape, Store, Lookup, Cut;
      ghost var input, below, start := In(), nodes[..|nodes| - 1], current;
      SetCurrentValue(Obj([]));
      ghost var result := ReadMembers(input, current, [], "");
      var members: seq<Member>, name := [], "";
      var tokenName;
      while true
        invariant Valid() && In() == input && errors == old(errors) && nodes == below + [Obj(members)]
        invariant start <= current && ReadMembers(input, current, members, name) == result
        decreases |document| - current
      {
        tokenName := SkipCommentTokens();
        if tokenName.kind == ObjectEnd && name == "" { return true; }
        if tokenName.kind != StringToken { break; }
        var more;
        ok, more, members, name := ReadOneMember(tokenName, members);
        if !more { return; }
      }
      ok := AddErrorAndRecover(NameExpected, tokenName, ObjectEnd);
    }

    /** The rest of a member whose name has been read, and what follows it;
      * `more` says that the object goes on. */
    method ReadOneMember(tokenName: Token, members: seq<Member>)
      returns (ok: bool, more: bool, after: seq<Member>, name: string)
      requires Valid() && nodes != [] && Top() == Obj(members)
      requires tokenName.start + 2 <= tokenName.end == current
      modifies this`current, this`errors, this`nodes
      ensures Valid()
      ensures
        var r := RestOfMember(old(In()), tokenName, members);
        && more == r.Goes?
        && nodes == old(nodes)[..|old(nodes)| - 1] + [Obj(after)]
        && (more ==> current == r.pos && errors == old(errors) && after == r.members && name == r.name)
        && (!more ==> (ok == r.result.ok && current == r.result.pos && errors == old(errors) + r.result.errors
              && Obj(after) == r.result.value))
      decreases |document| - current, 3
    {
      hide JsonGrammar.ReadValue, JsonLexing.ReadToken, SkipComments, Recover, Unescape, Store, Lookup, Cut;
      after, more := members, false;
      ok, name := DecodeString(tokenName);
      if !ok {
        ok := RecoverFromError(ObjectEnd);
        return;
      }
      var colon := ReadToken();
      if colon.kind != MemberSeparator {
        ok := AddErrorAndRecover(ColonExpected, colon, ObjectEnd);
        return;
      }
      ok, after := ReadMember(members, Cut(name));
      if !ok {
        ok := RecoverFromError(ObjectEnd);
        return;
      }
      var comma := ReadToken();
      if comma.kind != ObjectEnd && comma.kind != ArraySeparator && comma.kind != CommentToken {
        ok := AddErrorAndRecover(MemberEndExpected, comma, ObjectEnd);
        return;
      }
      if comma.kind == CommentToken { comma := SkipCommentTokens(); }
      more := comma.kind != ObjectEnd;
      ok := true;
    }
  }
}
