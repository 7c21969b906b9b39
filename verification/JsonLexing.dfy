/** How the JSON reader cuts a document into tokens, and what it means for a
  * piece of text to stand for a list of tokens wherever it is placed. A string
  * is a sequence of bytes, one per character. */
module JsonLexing {
  import opened CStrings

  datatype Kind =
    | ObjectBegin | ObjectEnd | ArrayBegin | ArrayEnd | StringToken | NumberToken
    | TrueToken | FalseToken | NullToken | ArraySeparator | MemberSeparator
    | CommentToken | EndOfStream | ErrorToken

  datatype Token = Token(kind: Kind, start: nat, end: nat)

  /** The end of a token and whether the token was well formed. */
  datatype Ending = Ending(end: nat, ok: bool)

  /** A token with its text, for comparing documents. */
  datatype Lexeme = Lexeme(kind: Kind, text: string)

  predicate IsSpace(c: char) {
    c == ' ' || c == '\t' || c == '\r' || c == '\n'
  }

  predicate IsDigit(c: char) {
    '0' <= c <= '9'
  }

  predicate IsNumberChar(c: char) {
    IsDigit(c) || c == '.' || c == 'e' || c == 'E' || c == '+' || c == '-'
  }

  function SkipSpaces(doc: string, pos: nat): (end: nat)
    requires pos <= |doc|
    ensures pos <= end <= |doc|
    ensures end < |doc| ==> !IsSpace(doc[end])
    ensures forall i :: pos <= i < end ==> IsSpace(doc[i])
    decreases |doc| - pos
  {
    if pos < |doc| && IsSpace(doc[pos]) then SkipSpaces(doc, pos + 1) else pos
  }

  function NumberEnd(doc: string, pos: nat): (end: nat)
    requires pos <= |doc|
    ensures pos <= end <= |doc|
    ensures end < |doc| ==> !IsNumberChar(doc[end])
    ensures forall i :: pos <= i < end ==> IsNumberChar(doc[i])
    decreases |doc| - pos
  {
    if pos < |doc| && IsNumberChar(doc[pos]) then NumberEnd(doc, pos + 1) else pos
  }

  /** The byte after a backslash never ends a string. */
  function StringEnd(doc: string, pos: nat): (r: Ending)
    requires pos <= |doc|
    ensures pos <= r.end <= |doc|
    ensures r.ok ==> pos < r.end && doc[r.end - 1] == '"'
    decreases |doc| - pos
  {
    if pos == |doc| then Ending(pos, false)
    else if doc[pos] == '"' then Ending(pos + 1, true)
    else if doc[pos] != '\\' then StringEnd(doc, pos + 1)
    else if pos + 1 == |doc| then Ending(pos + 1, false)
    else StringEnd(doc, pos + 2)
  }

  function BlockCommentEnd(doc: string, pos: nat): (r: Ending)
    requires pos <= |doc|
    ensures pos <= r.end <= |doc|
    decreases |doc| - pos
  {
    if pos == |doc| then Ending(pos, false)
    else if doc[pos] == '*' && At(doc, pos + 1) == '/' then Ending(pos + 2, true)
    else BlockCommentEnd(doc, pos + 1)
  }

  function LineCommentEnd(doc: string, pos: nat): (end: nat)
    requires pos <= |doc|
    ensures pos <= end <= |doc|
    decreases |doc| - pos
  {
    if pos == |doc| then pos
    else if doc[pos] == '\r' || doc[pos] == '\n' then pos + 1
    else LineCommentEnd(doc, pos + 1)
  }

  /** `pos` is just after the slash. */
  function CommentEnd(doc: string, pos: nat): (r: Ending)
    requires pos <= |doc|
    ensures pos <= r.end <= |doc|
  {
    if pos == |doc| then Ending(pos, false)
    else if doc[pos] == '*' then BlockCommentEnd(doc, pos + 1)
    else if doc[pos] == '/' then Ending(LineCommentEnd(doc, pos + 1), true)
    else Ending(pos + 1, false)
  }

  function WordEnd(doc: string, pos: nat, word: string): (r: Ending)
    requires pos <= |doc|
    ensures pos <= r.end <= |doc|
  {
    if |doc| - pos >= |word| && doc[pos..pos + |word|] == word then Ending(pos + |word|, true)
    else Ending(pos, false)
  }

  function Checked(kind: Kind, start: nat, r: Ending): Token {
    Token(if r.ok then kind else ErrorToken, start, r.end)
  }

  /** The next token at or after `pos`. */
  function ReadToken(doc: string, pos: nat): (t: Token)
    requires pos <= |doc|
    ensures pos <= t.start <= t.end <= |doc|
    ensures t.kind != EndOfStream ==> t.start < t.end
    ensures t.kind == StringToken ==> t.start + 2 <= t.end
    ensures t.kind == NumberToken ==> IsNumberText(doc[t.start..t.end])
  {
    var start := SkipSpaces(doc, pos);
    if start == |doc| then Token(EndOfStream, start, start) else
    var next := start + 1;
    match doc[start]
    case '{' => Token(ObjectBegin, start, next)
    case '}' => Token(ObjectEnd, start, next)
    case '[' => Token(ArrayBegin, start, next)
    case ']' => Token(ArrayEnd, start, next)
    case ',' => Token(ArraySeparator, start, next)
    case ':' => Token(MemberSeparator, start, next)
    case '"' => Checked(StringToken, start, StringEnd(doc, next))
    case '/' => Checked(CommentToken, start, CommentEnd(doc, next))
    case 't' => Checked(TrueToken, start, WordEnd(doc, next, "rue"))
    case 'f' => Checked(FalseToken, start, WordEnd(doc, next, "alse"))
    case 'n' => Checked(NullToken, start, WordEnd(doc, next, "ull"))
    case '\0' => Token(EndOfStream, start, next)
    case c =>
      if IsDigit(c) || c == '-' then Token(NumberToken, start, NumberEnd(doc, next))
      else Token(ErrorToken, start, next)
  }

  /** What a number token can look like. */
  predicate IsNumberText(text: string) {
    && text != ""
    && (IsDigit(text[0]) || text[0] == '-')
    && forall i :: 0 <= i < |text| ==> IsNumberChar(text[i])
  }

  /** The next token that is not a comment. */
  function SkipComments(doc: string, pos: nat): (t: Token)
    requires pos <= |doc|
    ensures pos <= t.start <= t.end <= |doc|
    ensures t.kind != EndOfStream ==> t.start < t.end
    ensures t.kind == StringToken ==> t.start + 2 <= t.end
    ensures t.kind == NumberToken ==> IsNumberText(doc[t.start..t.end])
    ensures t.kind != CommentToken
    decreases |doc| - pos
  {
    var t := ReadToken(doc, pos);
    if t.kind == CommentToken then SkipComments(doc, t.end) else t
  }

  /** Where the reader stands after skipping to a token of the wanted kind. */
  function Recover(doc: string, pos: nat, until: Kind): (end: nat)
    requires pos <= |doc|
    ensures pos <= end <= |doc|
    decreases |doc| - pos
  {
    var t := ReadToken(doc, pos);
    if t.kind == until || t.kind == EndOfStream then t.end else Recover(doc, t.end, until)
  }

  /** All the tokens from `pos` to the end of the stream. */
  function Lex(doc: string, pos: nat): seq<Lexeme>
    requires pos <= |doc|
    decreases |doc| - pos
  {
    var t := ReadToken(doc, pos);
    if t.kind == EndOfStream then [] else [Lexeme(t.kind, doc[t.start..t.end])] + Lex(doc, t.end)
  }

  /** Between the two positions the document is cut into exactly these tokens. */
  ghost predicate Cuts(doc: string, pos: nat, toks: seq<Lexeme>, end: nat)
    decreases |toks|
  {
    && pos <= |doc|
    && if toks == [] then pos == end else
       var t := ReadToken(doc, pos);
       Lexeme(t.kind, doc[t.start..t.end]) == toks[0] && Cuts(doc, t.end, toks[1..], end)
  }

  lemma {:induction false} CutsConcat(doc: string, a: nat, first: seq<Lexeme>, b: nat, second: seq<Lexeme>, c: nat)
    requires Cuts(doc, a, first, b) && Cuts(doc, b, second, c)
    ensures Cuts(doc, a, first + second, c)
    decreases |first|
  {
    hide ReadToken;
    if first == [] {
      assert first + second == second;
    } else {
      CutsConcat(doc, ReadToken(doc, a).end, first[1..], b, second, c);
      assert (first + second)[1..] == first[1..] + second;
    }
  }

  lemma {:induction false} CutsSplit(doc: string, a: nat, first: seq<Lexeme>, second: seq<Lexeme>, c: nat) returns (b: nat)
    requires Cuts(doc, a, first + second, c)
    ensures Cuts(doc, a, first, b) && Cuts(doc, b, second, c)
    decreases |first|
  {
    hide ReadToken;
    if first == [] {
      assert first + second == second;
      b := a;
    } else {
      assert (first + second)[1..] == first[1..] + second;
      b := CutsSplit(doc, ReadToken(doc, a).end, first[1..], second, c);
    }
  }

  // ---------------------------------------------------------------- contexts

  ghost predicate Occurs(doc: string, pos: nat, text: string) {
    pos + |text| <= |doc| && doc[pos..pos + |text|] == text
  }

  /** Wherever the text occurs, it reads as exactly these tokens. Text that is
    * not closed may end in a number, so a number must not go on after it. */
  ghost predicate Renders(text: string, toks: seq<Lexeme>, closed: bool) {
    forall doc: string, pos: nat
      | Occurs(doc, pos, text) && (closed || !IsNumberChar(At(doc, pos + |text|))) ::
      Lex(doc, pos) == toks + Lex(doc, pos + |text|)
  }

  ghost predicate StartsApart(text: string) {
    text != "" && !IsNumberChar(text[0])
  }

  lemma Weaken(text: string, toks: seq<Lexeme>)
    requires Renders(text, toks, true)
    ensures Renders(text, toks, false)
  {
    hide Lex;
  }

  /** Texts may be joined unless the seam could glue two numbers together. */
  lemma RendersConcat(a: string, ta: seq<Lexeme>, ca: bool, b: string, tb: seq<Lexeme>, cb: bool)
    requires Renders(a, ta, ca) && Renders(b, tb, cb)
    requires ca || StartsApart(b)
    ensures Renders(a + b, ta + tb, cb)
  {
    hide Lex, ReadToken, SkipSpaces;
    forall doc: string, pos: nat
      | Occurs(doc, pos, a + b) && (cb || !IsNumberChar(At(doc, pos + |a + b|)))
      ensures Lex(doc, pos) == (ta + tb) + Lex(doc, pos + |a + b|)
    {
      var mid := pos + |a|;
      SliceConcat(doc, pos, a, b);
      assert Occurs(doc, pos, a);
      assert Occurs(doc, mid, b);
      assert Lex(doc, pos) == ta + (tb + Lex(doc, mid + |b|));
    }
  }

  lemma SliceConcat(doc: string, pos: nat, a: string, b: string)
    requires pos + |a + b| <= |doc| && doc[pos..pos + |a + b|] == a + b
    ensures doc[pos..pos + |a|] == a
    ensures doc[pos + |a|..pos + |a| + |b|] == b
    ensures b != "" ==> doc[pos + |a|] == b[0]
  {
    var s := doc[pos..pos + |a + b|];
    assert s[..|a|] == a && s[|a|..] == b;
    assert s[..|a|] == doc[pos..pos + |a|];
    assert s[|a|..] == doc[pos + |a|..pos + |a| + |b|];
    if b != "" { assert s[|a|] == b[0]; }
  }

  /** Wherever the text occurs, the next token is all of it. */
  ghost predicate IsToken(text: string, kind: Kind, closed: bool) {
    forall doc: string, pos: nat
      | Occurs(doc, pos, text) && (closed || !IsNumberChar(At(doc, pos + |text|))) ::
      ReadToken(doc, pos) == Token(kind, pos, pos + |text|)
  }

  lemma TokenRenders(text: string, kind: Kind, closed: bool)
    requires kind != EndOfStream && IsToken(text, kind, closed)
    ensures Renders(text, [Lexeme(kind, text)], closed)
  {
    hide ReadToken;
    forall doc: string, pos: nat
      | Occurs(doc, pos, text) && (closed || !IsNumberChar(At(doc, pos + |text|)))
      ensures Lex(doc, pos) == [Lexeme(kind, text)] + Lex(doc, pos + |text|)
    {
      var t := ReadToken(doc, pos);
      assert t == Token(kind, pos, pos + |text|);
      hide IsToken;
      assert doc[t.start..t.end] == text;
    }
  }

  lemma SpacesRender(text: string)
    requires forall i :: 0 <= i < |text| ==> text[i] in [' ', '\t', '\r', '\n']
    ensures Renders(text, [], true)
  {
    forall doc: string, pos: nat | Occurs(doc, pos, text)
      ensures Lex(doc, pos) == [] + Lex(doc, pos + |text|)
    {
      SpacesSkip(doc, pos, pos + |text|, text);
    }
  }

  lemma {:induction false} SpacesSkip(doc: string, pos: nat, end: nat, text: string)
    requires pos <= end <= |doc| && doc[pos..end] == text
    requires forall i :: 0 <= i < |text| ==> IsSpace(text[i])
    ensures SkipSpaces(doc, pos) == SkipSpaces(doc, end)
    ensures ReadToken(doc, pos) == ReadToken(doc, end)
    ensures Lex(doc, pos) == Lex(doc, end)
    decreases |text|
  {
    hide StringEnd, BlockCommentEnd, LineCommentEnd, WordEnd, NumberEnd, CommentEnd;
    if pos < end {
      assert doc[pos] == text[0];
      assert doc[pos + 1..end] == text[1..];
      SpacesSkip(doc, pos + 1, end, text[1..]);
    }
  }

  predicate IsPunctuation(kind: Kind, text: string) {
    || (kind == ObjectBegin && text == "{") || (kind == ObjectEnd && text == "}")
    || (kind == ArrayBegin && text == "[") || (kind == ArrayEnd && text == "]")
    || (kind == ArraySeparator && text == ",") || (kind == MemberSeparator && text == ":")
  }

  predicate IsWord(kind: Kind, text: string) {
    || (kind == TrueToken && text == "true") || (kind == FalseToken && text == "false")
    || (kind == NullToken && text == "null")
  }

  lemma PunctuationRenders(kind: Kind, text: string)
    requires IsPunctuation(kind, text)
    ensures IsToken(text, kind, true)
    ensures Renders(text, [Lexeme(kind, text)], true)
  {
    forall doc: string, pos: nat | Occurs(doc, pos, text)
      ensures ReadToken(doc, pos) == Token(kind, pos, pos + |text|)
    {
      hide Lex, StringEnd, LineCommentEnd, BlockCommentEnd, WordEnd, NumberEnd;
      assert doc[pos] == doc[pos..pos + |text|][0];
      assert SkipSpaces(doc, pos) == pos;
    }
    TokenRenders(text, kind, true);
  }

  lemma WordRenders(kind: Kind, text: string)
    requires IsWord(kind, text)
    ensures IsToken(text, kind, true)
    ensures Renders(text, [Lexeme(kind, text)], true)
  {
    forall doc: string, pos: nat | Occurs(doc, pos, text)
      ensures ReadToken(doc, pos) == Token(kind, pos, pos + |text|)
    {
      hide Lex, StringEnd, LineCommentEnd, BlockCommentEnd, NumberEnd;
      SliceConcat(doc, pos, text[..1], text[1..]);
      assert text[..1] + text[1..] == text;
      assert doc[pos] == doc[pos..pos + |text|][0];
      assert SkipSpaces(doc, pos) == pos;
    }
    TokenRenders(text, kind, true);
  }

  lemma NumberRenders(text: string)
    requires IsNumberText(text)
    ensures Renders(text, [Lexeme(NumberToken, text)], false)
  {
    forall doc: string, pos: nat | Occurs(doc, pos, text) && !IsNumberChar(At(doc, pos + |text|))
      ensures ReadToken(doc, pos) == Token(NumberToken, pos, pos + |text|)
    {
      hide Lex, StringEnd, LineCommentEnd, BlockCommentEnd, WordEnd;
      forall k | pos <= k < pos + |text| ensures doc[k] == text[k - pos] {
        assert doc[k] == doc[pos..pos + |text|][k - pos];
      }
      assert SkipSpaces(doc, pos) == pos;
      assert NumberEnd(doc, pos + 1) == pos + |text|;
    }
    TokenRenders(text, NumberToken, false);
  }

  // ---------------------------------------------------------------- the shapes of tokens

  /** The text of a string token without its quotes: a backslash takes the next
    * byte with it, and no quote stands on its own. */
  predicate IsStringBody(s: string) {
    || s == ""
    || (s[0] == '\\' && |s| >= 2 && IsStringBody(s[2..]))
    || (s[0] != '\\' && s[0] != '"' && IsStringBody(s[1..]))
  }

  predicate IsStringText(text: string) {
    |text| >= 2 && text[0] == '"' && text[|text| - 1] == '"' && IsStringBody(text[1..|text| - 1])
  }

  /** From the slash and star to the first star and slash after them. */
  predicate IsBlockComment(text: string) {
    && |text| >= 4 && text[0] == '/' && text[1] == '*' && text[|text| - 2] == '*' && text[|text| - 1] == '/'
    && forall i :: 2 <= i < |text| - 2 ==> !(text[i] == '*' && text[i + 1] == '/')
  }

  predicate IsLineEnd(c: char) {
    c == '\n' || c == '\r'
  }

  /** From two slashes to the end of the line, which belongs to the comment. */
  predicate IsLineComment(text: string) {
    && |text| >= 2 && text[0] == '/' && text[1] == '/'
    && forall i :: 2 <= i < |text| - 1 ==> !IsLineEnd(text[i])
  }

  predicate IsClosedLineComment(text: string) {
    IsLineComment(text) && |text| > 2 && IsLineEnd(text[|text| - 1])
  }

  lemma {:induction false} StringEndShape(doc: string, pos: nat)
    requires pos <= |doc| && StringEnd(doc, pos).ok
    ensures pos < StringEnd(doc, pos).end && IsStringBody(doc[pos..StringEnd(doc, pos).end - 1])
    decreases |doc| - pos
  {
    var end := StringEnd(doc, pos).end;
    if doc[pos] == '"' {
      assert doc[pos..pos] == "";
    } else if doc[pos] != '\\' {
      StringEndShape(doc, pos + 1);
      assert doc[pos..end - 1][1..] == doc[pos + 1..end - 1];
    } else {
      StringEndShape(doc, pos + 2);
      assert doc[pos..end - 1][2..] == doc[pos + 2..end - 1];
    }
  }

  lemma {:induction false} BlockCommentShape(doc: string, pos: nat)
    requires pos <= |doc| && BlockCommentEnd(doc, pos).ok
    ensures
      var end := BlockCommentEnd(doc, pos).end;
      && pos + 2 <= end && doc[end - 2] == '*' && doc[end - 1] == '/'
      && forall i :: pos <= i < end - 2 ==> !(doc[i] == '*' && doc[i + 1] == '/')
    decreases |doc| - pos
  {
    if doc[pos] == '*' && At(doc, pos + 1) == '/' {
    } else {
      BlockCommentShape(doc, pos + 1);
    }
  }

  lemma {:induction false} LineCommentShape(doc: string, pos: nat)
    requires pos <= |doc|
    ensures
      var end := LineCommentEnd(doc, pos);
      && (forall i :: pos <= i < end - 1 ==> !IsLineEnd(doc[i]))
      && (end == |doc| || (pos < end && IsLineEnd(doc[end - 1])))
    decreases |doc| - pos
  {
    if pos < |doc| && !IsLineEnd(doc[pos]) { LineCommentShape(doc, pos + 1); }
  }

  lemma CommentShape(doc: string, pos: nat)
    requires pos < |doc| && doc[pos] == '/' && CommentEnd(doc, pos + 1).ok
    ensures
      var end := CommentEnd(doc, pos + 1).end;
      var text := doc[pos..end];
      IsBlockComment(text) || (IsLineComment(text) && (end == |doc| || IsClosedLineComment(text)))
  {
    var end := CommentEnd(doc, pos + 1).end;
    hide BlockCommentEnd, LineCommentEnd;
    if doc[pos + 1] == '*' {
      BlockCommentShape(doc, pos + 2);
      assert forall i :: 0 <= i < end - pos ==> doc[pos..end][i] == doc[pos + i];
    } else {
      LineCommentShape(doc, pos + 2);
      assert forall i :: 0 <= i < end - pos ==> doc[pos..end][i] == doc[pos + i];
    }
  }

  /** What the text of a token of each kind looks like. */
  predicate HasShape(kind: Kind, text: string) {
    match kind
    case StringToken => IsStringText(text)
    case NumberToken => IsNumberText(text)
    case CommentToken => IsBlockComment(text) || IsLineComment(text)
    case EndOfStream => text == "" || text == "\0"
    case ErrorToken => true
    case _ => IsPunctuation(kind, text) || IsWord(kind, text)
  }

  lemma SliceOfSlice(s: string, from: nat, to: nat, lo: nat, hi: nat)
    requires from <= to <= |s| && lo <= hi <= to - from
    ensures s[from..to][lo..hi] == s[from + lo..from + hi]
  {
    assert forall k :: 0 <= k < to - from ==> s[from..to][k] == s[from + k];
  }

  lemma StringShape(doc: string, pos: nat)
    requires pos < |doc| && doc[pos] == '"' && StringEnd(doc, pos + 1).ok
    ensures IsStringText(doc[pos..StringEnd(doc, pos + 1).end])
  {
    StringEndShape(doc, pos + 1);
    var end := StringEnd(doc, pos + 1).end;
    hide StringEnd, IsStringBody;
    SliceOfSlice(doc, pos, end, 1, end - pos - 1);
  }

  predicate IsPlain(kind: Kind) {
    kind !in {StringToken, NumberToken, CommentToken, EndOfStream, ErrorToken}
  }

  /** Only spaces are skipped before a token, and its text is of its kind. */
  lemma ReadTokenShape(doc: string, pos: nat)
    requires pos <= |doc|
    ensures
      var t := ReadToken(doc, pos);
      && (forall i :: pos <= i < t.start ==> doc[i] in [' ', '\t', '\r', '\n'])
      && HasShape(t.kind, doc[t.start..t.end])
      && (t.kind == NumberToken && t.end < |doc| ==> !IsNumberChar(doc[t.end]))
      && (t.kind == EndOfStream && t.end < |doc| ==> t.start < t.end)
  {
    hide StringEnd, CommentEnd, SkipSpaces, NumberEnd, IsStringText, IsBlockComment, IsLineComment, IsClosedLineComment;
    hide IsNumberText, IsNumberChar, IsPunctuation, IsWord, WordEnd;
    var t := ReadToken(doc, pos);
    if t.kind == CommentToken {
      CommentShape(doc, t.start);
    } else if t.kind == StringToken {
      StringShape(doc, t.start);
    } else if IsPlain(t.kind) {
      PlainShape(doc, pos);
    }
  }

  lemma PlainShape(doc: string, pos: nat)
    requires pos <= |doc| && IsPlain(ReadToken(doc, pos).kind)
    ensures
      var t := ReadToken(doc, pos);
      IsPunctuation(t.kind, doc[t.start..t.end]) || IsWord(t.kind, doc[t.start..t.end])
  {
    hide StringEnd, CommentEnd, SkipSpaces, NumberEnd, IsDigit, IsNumberText, IsNumberChar, IsWord;
    var t := ReadToken(doc, pos);
    if t.kind in {TrueToken, FalseToken, NullToken} {
      WordShape(doc, pos);
    }
  }

  lemma WordShape(doc: string, pos: nat)
    requires pos <= |doc| && ReadToken(doc, pos).kind in {TrueToken, FalseToken, NullToken}
    ensures IsWord(ReadToken(doc, pos).kind, doc[ReadToken(doc, pos).start..ReadToken(doc, pos).end])
  {
    hide StringEnd, CommentEnd, SkipSpaces, NumberEnd, IsDigit, IsNumberText, IsNumberChar;
    var t := ReadToken(doc, pos);
    assert doc[t.start..t.end] == [doc[t.start]] + doc[t.start + 1..t.end];
  }

  lemma {:induction false} BodyEnds(doc: string, pos: nat, body: string)
    requires IsStringBody(body) && Occurs(doc, pos, body + "\"")
    ensures StringEnd(doc, pos) == Ending(pos + |body| + 1, true)
    decreases |body|
  {
    SliceConcat(doc, pos, body, "\"");
    forall k | 0 <= k < |body| ensures doc[pos + k] == body[k] {
      assert doc[pos..pos + |body|][k] == doc[pos + k];
    }
    if body != "" {
      var n := if body[0] == '\\' then 2 else 1;
      assert (body + "\"")[n..] == body[n..] + "\"";
      assert doc[pos..pos + |body| + 1][n..] == doc[pos + n..pos + |body| + 1];
      BodyEnds(doc, pos + n, body[n..]);
    }
  }

  lemma BodyAfterQuote(doc: string, pos: nat, text: string)
    requires IsStringText(text) && Occurs(doc, pos, text)
    ensures StringEnd(doc, pos + 1) == Ending(pos + |text|, true)
  {
    hide IsStringBody, StringEnd;
    var body := text[1..|text| - 1];
    assert body + "\"" == text[1..];
    SliceOfSlice(doc, pos, pos + |text|, 1, |text|);
    BodyEnds(doc, pos + 1, body);
  }

  /** Wherever a string text occurs, the next token is all of it. */
  lemma StringIsToken(text: string)
    requires IsStringText(text)
    ensures IsToken(text, StringToken, true)
  {
    forall doc: string, pos: nat | Occurs(doc, pos, text)
      ensures ReadToken(doc, pos) == Token(StringToken, pos, pos + |text|)
    {
      hide StringEnd, CommentEnd, WordEnd, NumberEnd, IsStringBody;
      assert doc[pos] == doc[pos..pos + |text|][0];
      BodyAfterQuote(doc, pos, text);
      assert SkipSpaces(doc, pos) == pos;
    }
  }

  lemma {:induction false} BlockCommentEnds(doc: string, pos: nat, end: nat)
    requires pos + 2 <= end <= |doc| && doc[end - 2] == '*' && doc[end - 1] == '/'
    requires forall i :: pos <= i < end - 2 ==> !(doc[i] == '*' && doc[i + 1] == '/')
    ensures BlockCommentEnd(doc, pos) == Ending(end, true)
    decreases end - pos
  {
    if pos + 2 < end { BlockCommentEnds(doc, pos + 1, end); }
  }

  lemma {:induction false} LineCommentEnds(doc: string, pos: nat, end: nat)
    requires pos < end <= |doc| && IsLineEnd(doc[end - 1])
    requires forall i :: pos <= i < end - 1 ==> !IsLineEnd(doc[i])
    ensures LineCommentEnd(doc, pos) == end
    decreases end - pos
  {
    if pos + 1 < end { LineCommentEnds(doc, pos + 1, end); }
  }

  lemma CommentIsToken(text: string)
    requires IsBlockComment(text) || IsClosedLineComment(text)
    ensures IsToken(text, CommentToken, true)
  {
    forall doc: string, pos: nat | Occurs(doc, pos, text)
      ensures ReadToken(doc, pos) == Token(CommentToken, pos, pos + |text|)
    {
      forall k | 0 <= k < |text| ensures doc[pos + k] == text[k] {
        assert doc[pos..pos + |text|][k] == doc[pos + k];
      }
      hide Occurs, StringEnd, BlockCommentEnd, LineCommentEnd, WordEnd, NumberEnd;
      assert doc[pos] == text[0] && doc[pos + 1] == text[1];
      var end := pos + |text|;
      assert doc[end - 1] == text[|text| - 1];
      if IsBlockComment(text) {
        assert doc[end - 2] == text[|text| - 2];
        forall i | pos + 2 <= i < end - 2 ensures !(doc[i] == '*' && doc[i + 1] == '/') {
          assert doc[i] == text[i - pos] && doc[i + 1] == text[i - pos + 1];
        }
        BlockCommentEnds(doc, pos + 2, end);
      } else {
        forall i | pos + 2 <= i < end - 1 ensures !IsLineEnd(doc[i]) {
          assert doc[i] == text[i - pos];
        }
        LineCommentEnds(doc, pos + 2, end);
      }
      assert SkipSpaces(doc, pos) == pos;
    }
  }

  lemma SameAfterSpaces(doc: string, pos: nat)
    requires pos <= |doc|
    ensures ReadToken(doc, ReadToken(doc, pos).start) == ReadToken(doc, pos)
  {
    hide StringEnd, CommentEnd, NumberEnd, WordEnd;
    var start := SkipSpaces(doc, pos);
    assert SkipSpaces(doc, start) == start;
  }

  /** A token is an error only where no text of any other kind begins. */
  lemma ErrorsAreNoTokens(doc: string, pos: nat, kind: Kind, k: nat)
    requires pos <= |doc| && ReadToken(doc, pos).kind == ErrorToken && kind != ErrorToken
    requires ReadToken(doc, pos).start < k <= |doc|
    ensures !HasShape(kind, doc[ReadToken(doc, pos).start..k])
  {
    hide ReadToken, StringEnd, CommentEnd, IsStringText, IsBlockComment, IsLineComment, IsNumberText, IsPunctuation, IsWord;
    var start := ReadToken(doc, pos).start;
    var text := doc[start..k];
    SameAfterSpaces(doc, pos);
    assert Occurs(doc, start, text);
    if HasShape(kind, text) {
      match kind {
        case StringToken => StringIsToken(text);
        case CommentToken => if IsBlockComment(text) { CommentIsToken(text); } else { SlashesAreComment(doc, start, text); }
        case NumberToken => NumberBegins(doc, start, text);
        case EndOfStream => NulEnds(doc, start, text);
        case _ => PlainIsToken(doc, start, kind, text);
      }
    }
  }

  lemma PlainIsToken(doc: string, start: nat, kind: Kind, text: string)
    requires Occurs(doc, start, text) && (IsPunctuation(kind, text) || IsWord(kind, text))
    ensures ReadToken(doc, start).kind == kind
  {
    hide ReadToken;
    if IsPunctuation(kind, text) { PunctuationRenders(kind, text); } else { WordRenders(kind, text); }
  }

  lemma NumberBegins(doc: string, start: nat, text: string)
    requires IsNumberText(text) && Occurs(doc, start, text)
    ensures ReadToken(doc, start).kind == NumberToken
  {
    hide StringEnd, CommentEnd, NumberEnd, WordEnd;
    assert doc[start] == doc[start..start + |text|][0];
    assert SkipSpaces(doc, start) == start;
  }

  /** A NUL byte is taken for the end of the stream. */
  lemma NulEnds(doc: string, start: nat, text: string)
    requires text == "\0" && Occurs(doc, start, text)
    ensures ReadToken(doc, start) == Token(EndOfStream, start, start + 1)
  {
    hide StringEnd, CommentEnd, NumberEnd, WordEnd;
    assert doc[start] == doc[start..start + |text|][0];
    assert SkipSpaces(doc, start) == start;
  }

  lemma SlashesAreComment(doc: string, start: nat, text: string)
    requires IsLineComment(text) && Occurs(doc, start, text)
    ensures ReadToken(doc, start).kind == CommentToken
  {
    hide StringEnd, BlockCommentEnd, LineCommentEnd, NumberEnd, WordEnd;
    assert doc[start] == doc[start..start + |text|][0] && doc[start + 1] == doc[start..start + |text|][1];
    assert SkipSpaces(doc, start) == start;
  }

  /** Recovery stops after the first token of the wanted kind, or at the end of the stream. */
  lemma {:induction false} RecoverShape(doc: string, pos: nat, until: Kind) returns (toks: seq<Lexeme>)
    requires pos <= |doc|
    ensures toks != [] && Cuts(doc, pos, toks, Recover(doc, pos, until))
    ensures toks[|toks| - 1].kind == until || toks[|toks| - 1].kind == EndOfStream
    ensures forall i :: 0 <= i < |toks| - 1 ==> toks[i].kind != until && toks[i].kind != EndOfStream
    decreases |doc| - pos
  {
    var t := ReadToken(doc, pos);
    hide ReadToken;
    var word := Lexeme(t.kind, doc[t.start..t.end]);
    toks := [word];
    if t.kind != until && t.kind != EndOfStream {
      var more := RecoverShape(doc, t.end, until);
      toks := [word] + more;
      assert toks[1..] == more;
    }
  }
}
