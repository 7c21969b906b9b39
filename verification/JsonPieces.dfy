/** String literals as a list of pieces, without the decoder: which bodies can
  * be decoded, and to what. */
module JsonPieces {
  import opened JsonLexing
  import opened Lists
  import opened JsonStrings

  /** A byte as it is, a one-letter escape, a \u escape, or two of them for one
    * number. The second half of a pair may be any number. */
  datatype Piece =
    | Plain(c: char)
    | Short(k: nat)
    | Coded(h: string, n: nat)
    | Paired(high: string, first: nat, low: string, second: nat)

  /** The one-letter escapes and what they stand for. */
  const LETTERS: string := ['"', '/', '\\', 'b', 'f', 'n', 'r', 't']
  const MEANT: string := ['"', '/', '\\', 8 as char, 12 as char, '\n', '\r', '\t']

  predicate IsPiece(p: Piece) {
    match p
    case Plain(c) => c != '"' && c != '\\'
    case Short(k) => k < 8
    case Coded(h, n) => IsHex4(h, n) && !(0xD800 <= n <= 0xDBFF)
    case Paired(high, first, low, second) => IsHex4(high, first) && 0xD800 <= first <= 0xDBFF && IsHex4(low, second)
  }

  function Written(p: Piece): string
    requires IsPiece(p)
  {
    match p
    case Plain(c) => [c]
    case Short(k) => ['\\', LETTERS[k]]
    case Coded(h, _) => ['\\', 'u'] + h
    case Paired(high, _, low, _) => (['\\', 'u'] + high) + (['\\', 'u'] + low)
  }

  function Worth(p: Piece): string
    requires IsPiece(p)
  {
    match p
    case Plain(c) => [c]
    case Short(k) => [MEANT[k]]
    case Coded(_, n) => CodePointToUtf8(n)
    case Paired(_, first, _, second) => CodePointToUtf8(0x10000 + (first - 0xD800) * 0x400 + second % 0x400)
  }

  ghost predicate ArePieces(ps: seq<Piece>) {
    forall p <- ps :: IsPiece(p)
  }

  ghost function AllWritten(ps: seq<Piece>): string
    requires ArePieces(ps)
  {
    if ps == [] then "" else Written(ps[0]) + AllWritten(ps[1..])
  }

  ghost function AllWorth(ps: seq<Piece>): string
    requires ArePieces(ps)
  {
    if ps == [] then "" else Worth(ps[0]) + AllWorth(ps[1..])
  }

  /** Decoding stops at the end or before a quote. */
  predicate Ends(body: string, i: nat) {
    i == |body| || (i < |body| && body[i] == '"')
  }

  /** From `i` the body is written in these pieces up to its end. */
  ghost predicate Spelt(body: string, i: nat, ps: seq<Piece>) {
    ArePieces(ps) && Occurs(body, i, AllWritten(ps)) && Ends(body, i + |AllWritten(ps)|)
  }

  lemma FourLong(h: string, n: nat)
    requires IsHex4(h, n)
    ensures |h| == 4
  {
  }

  lemma CodedIsDecoded(body: string, i: nat, p: Piece, done: string)
    requires p.Coded? && IsPiece(p) && Occurs(body, i, Written(p))
    ensures Unescape(body, i, done) == Unescape(body, i + |Written(p)|, done + Worth(p))
  {
    hide HexRun, EscapeSequence, IsHex4, CodePointToUtf8;
    FourLong(p.h, p.n);
    OccursHead(body, i, ['\\', 'u'], p.h);
    assert body[i] == ['\\', 'u'][0] && body[i + 1] == ['\\', 'u'][1];
    Hex4Reads(body, i + 2, p.h, p.n);
  }

  lemma PairedIsRead(body: string, i: nat, p: Piece)
    requires p.Paired? && IsPiece(p) && Occurs(body, i, Written(p))
    ensures body[i] == '\\' && body[i + 1] == 'u'
    ensures |Written(p)| == 12
    ensures CodePoint(body, i + 2) == Code(0x10000 + (p.first - 0xD800) * 0x400 + p.second % 0x400, i + 12)
  {
    hide HexRun, EscapeSequence, IsHex4, CodePointToUtf8, Occurs;
    var head := ['\\', 'u'];
    FourLong(p.high, p.first);
    FourLong(p.low, p.second);
    OccursHead(body, i, head + p.high, head + p.low);
    OccursHead(body, i, head, p.high);
    OccursHead(body, i + 6, head, p.low);
    assert body[i] == head[0] && body[i + 1] == head[1];
    assert body[i + 6] == head[0] && body[i + 7] == head[1];
    Hex4Reads(body, i + 2, p.high, p.first);
    Hex4Reads(body, i + 8, p.low, p.second);
    assert p.first % 0x400 == p.first - 0xD800;
  }

  /** One piece is decoded as what it is worth. */
  lemma PieceIsDecoded(body: string, i: nat, p: Piece, done: string)
    requires IsPiece(p) && Occurs(body, i, Written(p))
    ensures Unescape(body, i, done) == Unescape(body, i + |Written(p)|, done + Worth(p))
  {
    hide CodePoint, CodePointToUtf8, IsHex4;
    match p {
      case Plain(c) => assert body[i] == body[i..i + 1][0];
      case Short(k) => assert body[i] == body[i..i + 2][0] && body[i + 1] == body[i..i + 2][1];
      case Coded(_, _) => CodedIsDecoded(body, i, p, done);
      case Paired(_, _, _, _) => PairedIsRead(body, i, p);
    }
  }

  /** What has been decoded without error is written as a piece. */
  lemma CodePointHasPiece(body: string, i: nat) returns (p: Piece)
    requires i + 2 <= |body| && body[i] == '\\' && body[i + 1] == 'u' && CodePoint(body, i + 2).Code?
    ensures IsPiece(p) && Occurs(body, i, Written(p))
  {
    hide EscapeSequence, IsHex4, CodePointToUtf8;
    var first := EscapeSequence(body, i + 2);
    EscapeSequenceIsExact(body, i + 2);
    var h := body[i + 2..i + 6];
    assert body[i..i + 6] == ['\\', 'u'] + h;
    if IsHighSurrogate(first.code) {
      var low := body[i + 8..i + 12];
      EscapeSequenceIsExact(body, i + 8);
      p := Paired(h, first.code, low, EscapeSequence(body, i + 8).code);
      assert body[i..i + 12] == body[i..i + 6] + (['\\', 'u'] + low);
    } else {
      p := Coded(h, first.code);
    }
  }

  lemma HasPiece(body: string, i: nat, done: string) returns (p: Piece)
    requires i <= |body| && !Ends(body, i) && Unescape(body, i, done).Text?
    ensures IsPiece(p) && Occurs(body, i, Written(p))
  {
    hide CodePoint, CodePointToUtf8, IsHex4;
    if body[i] != '\\' {
      p := Plain(body[i]);
    } else if body[i + 1] == 'u' {
      p := CodePointHasPiece(body, i);
    } else {
      p := ShortFor(body[i + 1]);
      assert body[i..i + 2] == ['\\', body[i + 1]];
    }
  }

  lemma ShortFor(c: char) returns (p: Piece)
    requires Simple(c) != '\0'
    ensures p.Short? && IsPiece(p) && LETTERS[p.k] == c
  {
    p := Short(
      if c == '"' then 0 else if c == '/' then 1 else if c == '\\' then 2 else if c == 'b' then 3
      else if c == 'f' then 4 else if c == 'n' then 5 else if c == 'r' then 6 else 7);
  }

  lemma {:induction false} PiecesDecode(body: string, i: nat, ps: seq<Piece>, done: string)
    requires Spelt(body, i, ps)
    ensures Unescape(body, i, done) == Text(done + AllWorth(ps))
    decreases |ps|
  {
    hide IsPiece, Written, Worth, CodePoint;
    if ps == [] {
      Trivial<char>(done);
    } else {
      var w := Written(ps[0]);
      assert AllWritten(ps) == w + AllWritten(ps[1..]);
      OccursHead(body, i, w, AllWritten(ps[1..]));
      PieceIsDecoded(body, i, ps[0], done);
      hide Unescape, Occurs, Ends;
      PiecesDecode(body, i + |w|, ps[1..], done + Worth(ps[0]));
      Regroup<char>(done, Worth(ps[0]), AllWorth(ps[1..]));
    }
  }

  lemma {:induction false} DecodedHasPieces(body: string, i: nat, done: string) returns (ps: seq<Piece>)
    requires i <= |body| && Unescape(body, i, done).Text?
    ensures Spelt(body, i, ps)
    decreases |body| - i
  {
    hide Unescape, IsPiece, Written, Worth, Occurs, Ends;
    if Ends(body, i) {
      ps := [];
      NothingOccurs(body, i);
    } else {
      var p := HasPiece(body, i, done);
      PieceIsDecoded(body, i, p, done);
      var w := Written(p);
      PieceGoes(body, i, p);
      var rest := DecodedHasPieces(body, i + |w|, done + Worth(p));
      ps := [p] + rest;
      assert ps[1..] == rest;
      OccursBoth(body, i, w, AllWritten(rest));
    }
  }

  lemma NothingOccurs(body: string, i: nat)
    requires i <= |body|
    ensures Occurs(body, i, "")
  {
  }

  lemma PieceGoes(body: string, i: nat, p: Piece)
    requires IsPiece(p) && Occurs(body, i, Written(p))
    ensures Written(p) != "" && i + |Written(p)| <= |body|
  {
    hide IsHex4;
  }

  lemma OccursBoth(doc: string, pos: nat, a: string, b: string)
    requires Occurs(doc, pos, a) && Occurs(doc, pos + |a|, b)
    ensures Occurs(doc, pos, a + b)
  {
    assert doc[pos..pos + |a| + |b|] == doc[pos..pos + |a|] + doc[pos + |a|..pos + |a| + |b|];
  }

  /** A body is decoded without error if and only if it is written in pieces,
    * and then it is what they are worth. */
  lemma DecodesExactlyPieces(body: string)
    ensures Unescape(body, 0, "").Text? <==> exists ps :: Spelt(body, 0, ps)
    ensures forall ps | Spelt(body, 0, ps) :: Unescape(body, 0, "") == Text(AllWorth(ps))
  {
    hide Unescape, Occurs, Ends, AllWritten, AllWorth, IsPiece;
    if Unescape(body, 0, "").Text? {
      var ps := DecodedHasPieces(body, 0, "");
    }
    forall ps | Spelt(body, 0, ps) ensures Unescape(body, 0, "") == Text(AllWorth(ps)) {
      PiecesDecode(body, 0, ps, "");
      Trivial<char>(AllWorth(ps));
    }
  }

  /** The writers leave a byte alone unless they must not: a quote, a backslash
    * and the bytes from 1 to 31 are written as the one-letter escape if there is
    * one, and otherwise as a \u escape in upper case. */
  lemma EscapeIsExact(c: char)
    ensures c == '"' || c == '\\' || 1 <= c as int <= 31 || Escape(c) == [c]
    ensures forall k: nat | k < 8 && k != 1 && MEANT[k] == c :: Escape(c) == ['\\', LETTERS[k]]
    ensures 1 <= c as int <= 31 && c !in MEANT ==>
      && |Escape(c)| == 6 && Escape(c)[..2] == ['\\', 'u'] && IsHex4(Escape(c)[2..], c as int)
      && forall d <- Escape(c)[2..] :: d in "0123456789ABCDEF"
  {
    if 1 <= c as int <= 31 && c !in MEANT { ControlEscape(c); }
  }

  lemma ControlEscape(c: char)
    requires 1 <= c as int <= 31 && c !in MEANT
    ensures
      && |Escape(c)| == 6 && Escape(c)[..2] == ['\\', 'u'] && IsHex4(Escape(c)[2..], c as int)
      && forall d <- Escape(c)[2..] :: d in "0123456789ABCDEF"
  {
    var n := c as int;
    assert MEANT[3] == 8 as char && MEANT[4] == 12 as char && MEANT[5] == '\n' && MEANT[6] == '\r' && MEANT[7] == '\t';
    assert Escape(c) == ['\\', 'u', '0', '0', HexDigit(n / 16), HexDigit(n % 16)];
    assert n / 0x10 % 0x10 == n / 16 && n / 0x100 % 0x10 == 0 && n / 0x1000 == 0;
  }
}
