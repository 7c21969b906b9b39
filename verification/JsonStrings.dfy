/** String literals: the quoting the writers do, the decoding the reader does,
  * and the UTF-8 it produces for \u escapes. */
module JsonStrings {
  import opened CStrings
  import opened JsonLexing
  import opened Lists

  // ---------------------------------------------------------------- quoting

  predicate IsControl(c: char) {
    '\0' < c <= 31 as char
  }

  predicate NeedsEscape(c: char) {
    c == '"' || c == '\\' || IsControl(c)
  }

  function HexDigit(d: nat): char
    requires d < 16
  {
    "0123456789ABCDEF"[d]
  }

  function Escape(c: char): (r: string)
    ensures r != ""
  {
    if c == '"' then "\\\""
    else if c == '\\' then "\\\\"
    else if c == 8 as char then "\\b"
    else if c == 12 as char then "\\f"
    else if c == '\n' then "\\n"
    else if c == '\r' then "\\r"
    else if c == '\t' then "\\t"
    else if IsControl(c) then ['\\', 'u', '0', '0', HexDigit(c as int / 16), HexDigit(c as int % 16)]
    else [c]
  }

  function Escaped(s: string): string {
    if s == "" then "" else Escape(s[0]) + Escaped(s[1..])
  }

  function Quote(s: string): string {
    "\"" + Escaped(s) + "\""
  }

  lemma {:induction false} EscapedAppend(s: string, c: char)
    ensures Escaped(s + [c]) == Escaped(s) + Escape(c)
  {
    if s == "" {
      assert [c][1..] == "";
    } else {
      assert (s + [c])[1..] == s[1..] + [c];
      EscapedAppend(s[1..], c);
    }
  }

  lemma {:induction false} PlainTextIsItsOwnEscape(s: string)
    requires forall c <- s :: !NeedsEscape(c)
    ensures Escaped(s) == s
  {
    if s != "" {
      assert Escape(s[0]) == [s[0]] by { assert s[0] in s; }
      hide Escape, IsControl, NeedsEscape;
      assert forall c <- s[1..] :: c in s;
      PlainTextIsItsOwnEscape(s[1..]);
      assert s == [s[0]] + s[1..];
    }
  }

  method ContainsControlCharacter(value: CString) returns (found: bool)
    ensures found <==> exists c <- value :: IsControl(c)
  {
    for i := 0 to |value|
      invariant forall c <- value[..i] :: !IsControl(c)
    {
      if IsControl(value[i]) { return true; }
    }
    return false;
  }

  /** Whether any character that has a short escape occurs. */
  predicate HasSpecial(value: string) {
    exists c <- value :: c in ['"', '\\', 8 as char, 12 as char, '\n', '\r', '\t']
  }

  method ValueToQuotedString(value: CString) returns (result: string)
    ensures result == Quote(value)
  {
    var control := ContainsControlCharacter(value);
    if !HasSpecial(value) && !control {
      PlainTextIsItsOwnEscape(value);
      return "\"" + value + "\"";
    }
    assert Escaped("") == "";
    hide Escape, Escaped, IsControl, HasSpecial;
    result := "\"";
    for i := 0 to |value|
      invariant result == "\"" + Escaped(value[..i])
    {
      EscapedAppend(value[..i], value[i]);
      assert value[..i + 1] == value[..i] + [value[i]];
      Regroup<char>("\"", Escaped(value[..i]), Escape(value[i]));
      result := result + Escape(value[i]);
    }
    assert value[..|value|] == value;
    result := result + "\"";
  }

  // ---------------------------------------------------------------- decoding

  /** The errors the reader reports. */
  datatype Message =
    | HexDigitExpected | FourDigitsExpected | SixMoreExpected | SecondHalfExpected | EmptyEscape | BadEscape
    | NotANumber(text: string) | ValueExpected | ColonExpected | MemberEndExpected | NameExpected | ItemEndExpected

  datatype Unescaped = Text(text: string) | Bad(message: Message, at: nat)

  datatype Scanned = Code(code: nat, next: nat) | Unreadable(message: Message, at: nat)

  /** The value of a hexadecimal digit, or 16. */
  function HexValue(c: char): (d: nat)
    ensures d <= 16
  {
    if '0' <= c <= '9' then c as int - '0' as int
    else if 'a' <= c <= 'f' then c as int - 'a' as int + 10
    else if 'A' <= c <= 'F' then c as int - 'A' as int + 10
    else 16
  }

  /** The digit with this value, in either case. */
  predicate IsDigitOf(c: char, d: nat) {
    d < 16 && (c == "0123456789abcdef"[d] || c == "0123456789ABCDEF"[d])
  }

  /** A character has the value of the digit it is, and 16 when it is no digit. */
  lemma HexValueIsExact(c: char)
    ensures forall d: nat | d < 16 :: HexValue(c) == d <==> IsDigitOf(c, d)
    ensures HexValue(c) == 16 <==> forall d: nat :: !IsDigitOf(c, d)
  {
    assert HexValue(c) < 16 ==> IsDigitOf(c, HexValue(c));
  }

  /** Reads `count` more digits after those worth `code`. */
  function HexRun(body: string, i: nat, count: nat, code: nat): (r: Scanned)
    requires i + count <= |body|
    ensures r.Code? ==> r.next == i + count
    ensures r.Unreadable? ==> r.at <= |body|
    decreases count
  {
    if count == 0 then Code(code, i)
    else if HexValue(body[i]) == 16 then
      Unreadable(HexDigitExpected, i + 1)
    else HexRun(body, i + 1, count - 1, code * 16 + HexValue(body[i]))
  }

  function EscapeSequence(body: string, i: nat): (r: Scanned)
    requires i <= |body|
    ensures r.Code? ==> r.next == i + 4 <= |body|
    ensures r.Unreadable? ==> r.at <= |body|
  {
    if |body| - i < 4 then
      Unreadable(FourDigitsExpected, i)
    else HexRun(body, i, 4, 0)
  }

  predicate IsHighSurrogate(code: nat) {
    0xD800 <= code <= 0xDBFF
  }

  /** The second half of a pair is not checked to be a low surrogate. */
  function Combine(high: nat, low: nat): nat {
    0x10000 + (high % 0x400) * 0x400 + low % 0x400
  }

  /** `i` is just after the `\u`. */
  function CodePoint(body: string, i: nat): (r: Scanned)
    requires i <= |body|
    ensures r.Code? ==> i < r.next <= |body|
    ensures r.Unreadable? ==> r.at <= |body|
  {
    var first := EscapeSequence(body, i);
    if first.Unreadable? || !IsHighSurrogate(first.code) then first
    else if |body| - first.next < 6 then
      Unreadable(SixMoreExpected, first.next)
    else if body[first.next] != '\\' then Unreadable(SecondHalfExpected, first.next + 1)
    else if body[first.next + 1] != 'u' then Unreadable(SecondHalfExpected, first.next + 2)
    else
      var second := EscapeSequence(body, first.next + 2);
      if second.Unreadable? then second
      else Code(Combine(first.code, second.code), second.next)
  }

  function Byte(n: nat): (c: char)
    requires n < 256
    ensures c as int == n
  {
    n as char
  }

  function CodePointToUtf8(cp: nat): string {
    if cp <= 0x7F then [Byte(cp)]
    else if cp <= 0x7FF then
      [Byte(0xC0 + cp / 0x40 % 0x20), Byte(0x80 + cp % 0x40)]
    else if cp <= 0xFFFF then
      [Byte(0xE0 + cp / 0x1000 % 0x10), Byte(0x80 + cp / 0x40 % 0x40), Byte(0x80 + cp % 0x40)]
    else if cp <= 0x10FFFF then
      [Byte(0xF0 + cp / 0x4_0000 % 8), Byte(0x80 + cp / 0x1000 % 0x40),
       Byte(0x80 + cp / 0x40 % 0x40), Byte(0x80 + cp % 0x40)]
    else ""
  }

  /** The character a one-letter escape stands for, or NUL. */
  function Simple(c: char): char {
    match c
    case '"' => '"'
    case '/' => '/'
    case '\\' => '\\'
    case 'b' => 8 as char
    case 'f' => 12 as char
    case 'n' => '\n'
    case 'r' => '\r'
    case 't' => '\t'
    case _ => NUL
  }

  /** Decodes what stands between the quotes, from `i`, after `done`. */
  function Unescape(body: string, i: nat, done: string): (r: Unescaped)
    requires i <= |body|
    ensures r.Bad? ==> r.at <= |body|
    decreases |body| - i
  {
    if i == |body| || body[i] == '"' then Text(done)
    else if body[i] != '\\' then Unescape(body, i + 1, done + [body[i]])
    else if i + 1 == |body| then Bad(EmptyEscape, i + 1)
    else if Simple(body[i + 1]) != NUL then Unescape(body, i + 2, done + [Simple(body[i + 1])])
    else if body[i + 1] == 'u' then
      var r := CodePoint(body, i + 2);
      if r.Unreadable? then Bad(r.message, r.at)
      else Unescape(body, r.next, done + CodePointToUtf8(r.code))
    else Bad(BadEscape, i + 2)
  }

  /** The number that four hexadecimal digits of either case write, the highest first. */
  predicate IsHex4(h: string, n: nat) {
    && |h| == 4 && n < 0x1_0000
    && IsDigitOf(h[0], n / 0x1000) && IsDigitOf(h[1], n / 0x100 % 0x10)
    && IsDigitOf(h[2], n / 0x10 % 0x10) && IsDigitOf(h[3], n % 0x10)
  }

  predicate IsHexDigit(c: char) {
    exists d: nat :: d < 16 && IsDigitOf(c, d)
  }

  /** Exactly four digits are read, or the first character that is no digit is the error. */
  ghost predicate IsFourDigits(body: string, start: nat, r: Scanned)
    requires start <= |body|
  {
    if |body| - start < 4 then r == Unreadable(FourDigitsExpected, start)
    else if r.Code? then r.next == start + 4 && IsHex4(body[start..start + 4], r.code)
    else
      && r.message == HexDigitExpected && start < r.at <= start + 4
      && !IsHexDigit(body[r.at - 1])
      && forall k :: start <= k < r.at - 1 ==> IsHexDigit(body[k])
  }

  lemma NotADigit(c: char)
    ensures HexValue(c) == 16 <==> !IsHexDigit(c)
  {
    HexValueIsExact(c);
    hide HexValue;
    if HexValue(c) < 16 { assert IsDigitOf(c, HexValue(c)); }
  }

  lemma HexStep(body: string, i: nat, count: nat, code: nat)
    requires i + count <= |body|
    ensures count == 0 ==> HexRun(body, i, count, code) == Code(code, i)
    ensures count > 0 && HexValue(body[i]) == 16 ==>
      HexRun(body, i, count, code)
        == Unreadable(HexDigitExpected, i + 1)
    ensures count > 0 && HexValue(body[i]) != 16 ==>
      HexRun(body, i, count, code) == HexRun(body, i + 1, count - 1, code * 16 + HexValue(body[i]))
  {
  }

  lemma Hex4Facts(d0: nat, d1: nat, d2: nat, d3: nat)
    requires d0 < 16 && d1 < 16 && d2 < 16 && d3 < 16
    ensures
      var n := ((d0 * 16 + d1) * 16 + d2) * 16 + d3;
      n < 0x1_0000 && n / 0x1000 == d0 && n / 0x100 % 0x10 == d1 && n / 0x10 % 0x10 == d2 && n % 0x10 == d3
  {
  }

  /** Four digits one after another, with the values that `HexValue` gives them. */
  lemma FourDigitsRead(body: string, start: nat)
    requires start + 4 <= |body|
    ensures
      var r := HexRun(body, start, 4, 0);
      var bad := k => start <= k < |body| && HexValue(body[k]) == 16;
      if bad(start) then r == Unreadable(HexDigitExpected, start + 1)
      else if bad(start + 1) then r == Unreadable(HexDigitExpected, start + 2)
      else if bad(start + 2) then r == Unreadable(HexDigitExpected, start + 3)
      else if bad(start + 3) then r == Unreadable(HexDigitExpected, start + 4)
      else r == Code(
        ((HexValue(body[start]) * 16 + HexValue(body[start + 1])) * 16 + HexValue(body[start + 2])) * 16
          + HexValue(body[start + 3]), start + 4)
  {
    hide HexValue, HexRun;
    var v := HexValue(body[start]);
    var vv := v * 16 + HexValue(body[start + 1]);
    var vvv := vv * 16 + HexValue(body[start + 2]);
    HexStep(body, start, 4, 0);
    HexStep(body, start + 1, 3, v);
    HexStep(body, start + 2, 2, vv);
    HexStep(body, start + 3, 1, vvv);
    HexStep(body, start + 4, 0, vvv * 16 + HexValue(body[start + 3]));
  }

  lemma Hex4Parts(n: nat)
    requires n < 0x1_0000
    ensures n == ((n / 0x1000 * 16 + n / 0x100 % 0x10) * 16 + n / 0x10 % 0x10) * 16 + n % 0x10
    ensures n / 0x1000 < 16
  {
    assert n / 0x10 == n / 0x100 * 16 + n / 0x10 % 0x10;
    assert n / 0x100 == n / 0x1000 * 16 + n / 0x100 % 0x10;
  }

  lemma Hex4Value(h: string, n: nat)
    requires |h| == 4
    ensures IsHex4(h, n) <==>
      && HexValue(h[0]) < 16 && HexValue(h[1]) < 16 && HexValue(h[2]) < 16 && HexValue(h[3]) < 16
      && n == ((HexValue(h[0]) * 16 + HexValue(h[1])) * 16 + HexValue(h[2])) * 16 + HexValue(h[3])
  {
    hide HexValue, IsDigitOf;
    HexValueIsExact(h[0]);
    HexValueIsExact(h[1]);
    HexValueIsExact(h[2]);
    HexValueIsExact(h[3]);
    if n < 0x1_0000 { Hex4Parts(n); }
    if HexValue(h[0]) < 16 && HexValue(h[1]) < 16 && HexValue(h[2]) < 16 && HexValue(h[3]) < 16 {
      Hex4Facts(HexValue(h[0]), HexValue(h[1]), HexValue(h[2]), HexValue(h[3]));
    }
  }

  /** What four digits are worth, and no other number. */
  lemma FourDigitsAre(body: string, start: nat, n: nat)
    requires start + 4 <= |body|
    ensures IsHex4(body[start..start + 4], n) <==> EscapeSequence(body, start) == Code(n, start + 4)
  {
    hide HexValue, HexRun, IsHex4;
    FourDigitsRead(body, start);
    Hex4Value(body[start..start + 4], n);
  }

  lemma EscapeSequenceIsExact(body: string, start: nat)
    requires start <= |body|
    ensures IsFourDigits(body, start, EscapeSequence(body, start))
  {
    hide HexValue, HexRun, IsHex4, IsHexDigit;
    if |body| - start >= 4 {
      var r := EscapeSequence(body, start);
      if r.Code? {
        FourDigitsAre(body, start, r.code);
      } else {
        FourDigitsRead(body, start);
        forall k | start <= k < start + 4 ensures HexValue(body[k]) == 16 <==> !IsHexDigit(body[k]) {
          NotADigit(body[k]);
        }
      }
    }
  }

  /** Four hexadecimal digits at `start`. */
  method DecodeUnicodeEscapeSequence(body: string, start: nat) returns (r: Scanned)
    requires start <= |body|
    ensures r == EscapeSequence(body, start) && IsFourDigits(body, start, r)
  {
    hide HexValue, HexRun, IsFourDigits;
    EscapeSequenceIsExact(body, start);
    if |body| - start < 4 {
      return Unreadable(FourDigitsExpected, start);
    }
    var unicode: nat, current := 0, start;
    for index := 0 to 4
      invariant current == start + index
      invariant HexRun(body, current, 4 - index, unicode) == HexRun(body, start, 4, 0)
    {
      HexStep(body, current, 4 - index, unicode);
      var c := body[current];
      current := current + 1;
      if HexValue(c) == 16 {
        return Unreadable(HexDigitExpected, current);
      }
      unicode := unicode * 16 + HexValue(c);
    }
    HexStep(body, current, 0, unicode);
    return Code(unicode, current);
  }

  method DecodeUnicodeCodePoint(body: string, start: nat) returns (r: Scanned)
    requires start <= |body|
    ensures r == CodePoint(body, start)
  {
    hide IsFourDigits, EscapeSequence;
    r := DecodeUnicodeEscapeSequence(body, start);
    if r.Unreadable? || !(0xD800 <= r.code <= 0xDBFF) { return; }
    var unicode, current := r.code, r.next;
    if |body| - current < 6 {
      return Unreadable(SixMoreExpected, current);
    }
    current := current + 1;
    var paired := body[current - 1] == '\\';
    if paired {
      current := current + 1;
      paired := body[current - 1] == 'u';
    }
    if !paired { return Unreadable(SecondHalfExpected, current); }
    r := DecodeUnicodeEscapeSequence(body, current);
    if r.Unreadable? { return; }
    return Code(0x10000 + unicode % 0x400 * 0x400 + r.code % 0x400, r.next);
  }

  /** Decodes what stands between the quotes. */
  method DecodeBody(body: string) returns (r: Unescaped)
    ensures r == Unescape(body, 0, "")
  {
    var decoded, current := "", 0;
    while current != |body|
      invariant current <= |body|
      invariant Unescape(body, current, decoded) == Unescape(body, 0, "")
      decreases |body| - current
    {
      var c := body[current];
      current := current + 1;
      if c == '"' { break; }
      if c != '\\' {
        decoded := decoded + [c];
      } else {
        if current == |body| { return Bad(EmptyEscape, current); }
        var escape := body[current];
        current := current + 1;
        if escape == 'u' {
          var scanned := DecodeUnicodeCodePoint(body, current);
          if scanned.Unreadable? { return Bad(scanned.message, scanned.at); }
          decoded := decoded + CodePointToUtf8(scanned.code);
          current := scanned.next;
        } else if Simple(escape) != NUL {
          decoded := decoded + [Simple(escape)];
        } else {
          return Bad(BadEscape, current);
        }
      }
    }
    return Text(decoded);
  }

  // ---------------------------------------------------------------- the literal round trip

  lemma OccursHead(doc: string, pos: nat, a: string, b: string)
    requires Occurs(doc, pos, a + b)
    ensures Occurs(doc, pos, a) && Occurs(doc, pos + |a|, b)
    ensures forall k :: 0 <= k < |a| ==> doc[pos + k] == a[k]
  {
    SliceConcat(doc, pos, a, b);
    forall k | 0 <= k < |a| ensures doc[pos + k] == a[k] {
      assert doc[pos + k] == doc[pos..pos + |a|][k];
    }
  }

  lemma {:induction false} EscapedEnd(doc: string, pos: nat, s: string)
    requires Occurs(doc, pos, Escaped(s) + "\"")
    ensures StringEnd(doc, pos) == Ending(pos + |Escaped(s)| + 1, true)
    decreases |s|
  {
    if s == "" {
      Trivial<char>("\"");
      QuoteEnds(doc, pos);
    } else {
      var e := Escape(s[0]);
      assert Escaped(s) == e + Escaped(s[1..]);
      hide Escape, StringEnd, Escaped;
      Regroup<char>(e, Escaped(s[1..]), "\"");
      OccursHead(doc, pos, e, Escaped(s[1..]) + "\"");
      EscapedEnd(doc, pos + |e|, s[1..]);
      EscapeIsSkipped(doc, pos, s[0]);
    }
  }

  lemma QuoteEnds(doc: string, pos: nat)
    requires Occurs(doc, pos, "\"")
    ensures StringEnd(doc, pos) == Ending(pos + 1, true)
  {
    assert doc[pos] == doc[pos..pos + 1][0];
  }

  lemma EscapeIsSkipped(doc: string, pos: nat, c: char)
    requires Occurs(doc, pos, Escape(c)) && pos + |Escape(c)| < |doc|
    requires forall k :: 0 <= k < |Escape(c)| ==> doc[pos + k] == Escape(c)[k]
    ensures StringEnd(doc, pos) == StringEnd(doc, pos + |Escape(c)|)
  {
    var e := Escape(c);
    assert doc[pos] == e[0];
    if |e| == 6 {
      assert doc[pos + 1] == e[1] && doc[pos + 2] == e[2] && doc[pos + 3] == e[3];
      assert doc[pos + 4] == e[4] && doc[pos + 5] == e[5];
      assert StringEnd(doc, pos + 2) == StringEnd(doc, pos + 3) == StringEnd(doc, pos + 4);
      assert StringEnd(doc, pos + 4) == StringEnd(doc, pos + 5) == StringEnd(doc, pos + 6);
    }
  }

  lemma EscapeIsDecoded(body: string, i: nat, c: char, done: string)
    requires i + |Escape(c)| <= |body|
    requires forall k :: 0 <= k < |Escape(c)| ==> body[i + k] == Escape(c)[k]
    ensures Unescape(body, i, done) == Unescape(body, i + |Escape(c)|, done + [c])
  {
    var e := Escape(c);
    assert body[i] == e[0];
    if |e| == 2 {
      assert body[i + 1] == e[1];
    } else if |e| == 6 {
      assert body[i + 1] == e[1] && body[i + 2] == e[2] && body[i + 3] == e[3];
      assert body[i + 4] == e[4] && body[i + 5] == e[5];
      ControlCode(body, i + 2, c);
    }
  }

  lemma ControlCode(body: string, i: nat, c: char)
    requires IsControl(c) && i + 4 <= |body|
    requires body[i] == '0' && body[i + 1] == '0'
    requires body[i + 2] == HexDigit(c as int / 16) && body[i + 3] == HexDigit(c as int % 16)
    ensures CodePoint(body, i) == Code(c as int, i + 4)
    ensures CodePointToUtf8(c as int) == [c]
  {
    assert HexValue(body[i + 2]) == c as int / 16 && HexValue(body[i + 3]) == c as int % 16;
    assert HexRun(body, i + 2, 2, 0) == Code(c as int, i + 4);
    assert HexRun(body, i, 4, 0) == HexRun(body, i + 1, 3, 0) == HexRun(body, i + 2, 2, 0);
  }

  lemma EscapedParts(s: string)
    ensures s == "" ==> Escaped(s) == ""
    ensures s != "" ==> Escaped(s) == Escape(s[0]) + Escaped(s[1..]) && s == [s[0]] + s[1..]
  {
  }

  lemma DecodesNothing(body: string, done: string)
    ensures Unescape(body, |body|, done) == Text(done + "")
  {
    Trivial<char>(done);
  }

  lemma {:induction false} EscapedDecodes(body: string, i: nat, s: string, done: string)
    requires Occurs(body, i, Escaped(s)) && i + |Escaped(s)| == |body|
    ensures Unescape(body, i, done) == Text(done + s)
    decreases |s|
  {
    hide Unescape, Escape, Escaped, Occurs;
    EscapedParts(s);
    if s == "" {
      DecodesNothing(body, done);
    } else {
      var e, rest := Escape(s[0]), Escaped(s[1..]);
      OccursHead(body, i, e, rest);
      DecodesRest(body, i, s, done, e, rest);
    }
  }

  lemma {:induction false} DecodesRest(body: string, i: nat, s: string, done: string, e: string, rest: string)
    requires s != "" && e == Escape(s[0]) && rest == Escaped(s[1..])
    requires i + |e| + |rest| == |body| && Occurs(body, i + |e|, rest)
    requires forall k :: 0 <= k < |e| ==> body[i + k] == e[k]
    ensures Unescape(body, i, done) == Text(done + s)
    decreases |s|, 0
  {
    hide Unescape, Escape, Escaped, Occurs;
    EscapeIsDecoded(body, i, s[0], done);
    EscapedDecodes(body, i + |e|, s[1..], done + [s[0]]);
    Regroup<char>(done, [s[0]], s[1..]);
    EscapedParts(s);
  }

  lemma QuoteOccurs(doc: string, pos: nat, s: string)
    requires Occurs(doc, pos, Quote(s))
    ensures |Quote(s)| == |Escaped(s)| + 2 && pos + |Quote(s)| <= |doc|
    ensures doc[pos] == '"' && Occurs(doc, pos + 1, Escaped(s) + "\"")
    ensures doc[pos + 1..pos + |Quote(s)| - 1] == Escaped(s)
  {
    hide Escaped;
    Regroup<char>("\"", Escaped(s), "\"");
    OccursHead(doc, pos, "\"", Escaped(s) + "\"");
    OccursHead(doc, pos + 1, Escaped(s), "\"");
  }

  /** Section 7 of RFC 8259: wherever the quoted form of a string stands and
    * whatever follows it, the reader takes exactly that much as one string
    * token, and decoding the token gives the string back. */
  lemma LiteralRoundTrip(doc: string, pos: nat, s: string)
    requires Occurs(doc, pos, Quote(s))
    ensures ReadToken(doc, pos) == Token(StringToken, pos, pos + |Quote(s)|)
    ensures Unescape(doc[pos + 1..pos + |Quote(s)| - 1], 0, "") == Text(s)
  {
    hide Quote, Occurs, Escaped, StringEnd, ReadToken, Unescape;
    QuoteOccurs(doc, pos, s);
    EscapedEnd(doc, pos + 1, s);
    StringTokenAt(doc, pos);
    BodyDecodes(s);
  }

  lemma BodyDecodes(s: string)
    ensures Unescape(Escaped(s), 0, "") == Text(s)
  {
    hide Escaped, Unescape;
    EscapedDecodes(Escaped(s), 0, s, "");
    Trivial<char>(s);
  }

  lemma StringTokenAt(doc: string, pos: nat)
    requires pos < |doc| && doc[pos] == '"'
    ensures ReadToken(doc, pos) == Checked(StringToken, pos, StringEnd(doc, pos + 1))
  {
    hide StringEnd, BlockCommentEnd, LineCommentEnd, WordEnd, NumberEnd, Lex;
    assert SkipSpaces(doc, pos) == pos;
  }

  lemma QuoteRenders(s: string)
    ensures Renders(Quote(s), [Lexeme(StringToken, Quote(s))], true)
  {
    hide ReadToken, Quote;
    forall doc: string, pos: nat | Occurs(doc, pos, Quote(s))
      ensures ReadToken(doc, pos) == Token(StringToken, pos, pos + |Quote(s)|)
    {
      LiteralRoundTrip(doc, pos, s);
    }
    TokenRenders(Quote(s), StringToken, true);
  }

  // ---------------------------------------------------------------- \u escapes and UTF-8

  predicate IsByte(c: char, low: nat, high: nat) {
    low <= c as int <= high
  }

  /** Section 3 of RFC 3629: the bytes are the shortest encoding of the number. */
  predicate IsUtf8(b: string, cp: nat) {
    match |b|
    case 1 => cp <= 0x7F && b[0] as int == cp
    case 2 =>
      && 0x80 <= cp <= 0x7FF
      && IsByte(b[0], 0xC0, 0xDF) && IsByte(b[1], 0x80, 0xBF)
      && cp == (b[0] as int - 0xC0) * 0x40 + (b[1] as int - 0x80)
    case 3 =>
      && 0x800 <= cp <= 0xFFFF
      && IsByte(b[0], 0xE0, 0xEF) && IsByte(b[1], 0x80, 0xBF) && IsByte(b[2], 0x80, 0xBF)
      && cp == (b[0] as int - 0xE0) * 0x1000 + (b[1] as int - 0x80) * 0x40 + (b[2] as int - 0x80)
    case 4 =>
      && 0x1_0000 <= cp <= 0x10_FFFF
      && IsByte(b[0], 0xF0, 0xF7) && IsByte(b[1], 0x80, 0xBF)
      && IsByte(b[2], 0x80, 0xBF) && IsByte(b[3], 0x80, 0xBF)
      && cp == (b[0] as int - 0xF0) * 0x4_0000 + (b[1] as int - 0x80) * 0x1000
               + (b[2] as int - 0x80) * 0x40 + (b[3] as int - 0x80)
    case _ => false
  }

  /** The encoder is correct and complete: its bytes are the only ones that encode the number. */
  lemma Utf8IsExact(cp: nat, b: string)
    requires cp <= 0x10FFFF
    ensures IsUtf8(b, cp) <==> b == CodePointToUtf8(cp)
  {
    if IsUtf8(b, cp) { Utf8Unique(cp, b); }
    if b == CodePointToUtf8(cp) { Utf8Encodes(cp); }
  }

  lemma SixBits(n: nat, high: nat, low: nat)
    requires n == high * 0x40 + low && low < 0x40
    ensures n / 0x40 == high && n % 0x40 == low
  {
  }

  lemma Bytes(cp: nat, d3: nat, d2: nat, d1: nat, d0: nat)
    requires cp == d3 * 0x4_0000 + d2 * 0x1000 + d1 * 0x40 + d0
    requires d0 < 0x40 && d1 < 0x40 && d2 < 0x40
    ensures cp % 0x40 == d0 && cp / 0x40 % 0x40 == d1 && cp / 0x1000 % 0x40 == d2
    ensures cp / 0x40 == d3 * 0x1000 + d2 * 0x40 + d1
    ensures cp / 0x1000 == d3 * 0x40 + d2
    ensures cp / 0x4_0000 == d3
  {
    SixBits(cp, d3 * 0x1000 + d2 * 0x40 + d1, d0);
    SixBits(d3 * 0x1000 + d2 * 0x40 + d1, d3 * 0x40 + d2, d1);
    SixBits(d3 * 0x40 + d2, d3, d2);
  }

  lemma Digits(cp: nat) returns (d3: nat, d2: nat, d1: nat, d0: nat)
    ensures cp == d3 * 0x4_0000 + d2 * 0x1000 + d1 * 0x40 + d0
    ensures d0 < 0x40 && d1 < 0x40 && d2 < 0x40
    ensures cp % 0x40 == d0 && cp / 0x40 % 0x40 == d1 && cp / 0x1000 % 0x40 == d2
    ensures cp / 0x40 == d3 * 0x1000 + d2 * 0x40 + d1
    ensures cp / 0x1000 == d3 * 0x40 + d2
    ensures cp / 0x4_0000 == d3
  {
    var n1 := cp / 0x40;
    var n2 := n1 / 0x40;
    d3, d2, d1, d0 := n2 / 0x40, n2 % 0x40, n1 % 0x40, cp % 0x40;
    Bytes(cp, d3, d2, d1, d0);
  }

  lemma Utf8Encodes(cp: nat)
    requires cp <= 0x10FFFF
    ensures IsUtf8(CodePointToUtf8(cp), cp)
  {
    var d3, d2, d1, d0 := Digits(cp);
    hide IsUtf8, CodePointToUtf8;
    if cp <= 0x7F {
      OneByte(cp);
    } else if cp <= 0x7FF {
      assert d3 == 0 && d2 == 0;
      TwoBytes(cp, d1, d0);
    } else if cp <= 0xFFFF {
      assert d3 == 0;
      ThreeBytes(cp, d2, d1, d0);
    } else {
      FourBytes(cp, d3, d2, d1, d0);
    }
  }

  lemma OneByte(cp: nat)
    requires cp <= 0x7F
    ensures IsUtf8(CodePointToUtf8(cp), cp)
  {
  }

  lemma TwoBytes(cp: nat, d1: nat, d0: nat)
    requires 0x80 <= cp <= 0x7FF && cp == d1 * 0x40 + d0 && d0 < 0x40
    requires cp % 0x40 == d0 && cp / 0x40 == d1
    ensures IsUtf8(CodePointToUtf8(cp), cp)
  {
    assert d1 % 0x20 == d1;
  }

  lemma ThreeBytes(cp: nat, d2: nat, d1: nat, d0: nat)
    requires 0x800 <= cp <= 0xFFFF && cp == d2 * 0x1000 + d1 * 0x40 + d0 && d0 < 0x40 && d1 < 0x40
    requires cp % 0x40 == d0 && cp / 0x40 % 0x40 == d1 && cp / 0x1000 == d2
    ensures IsUtf8(CodePointToUtf8(cp), cp)
  {
    assert d2 % 0x10 == d2;
  }

  lemma FourBytes(cp: nat, d3: nat, d2: nat, d1: nat, d0: nat)
    requires 0x1_0000 <= cp <= 0x10_FFFF
    requires cp == d3 * 0x4_0000 + d2 * 0x1000 + d1 * 0x40 + d0 && d0 < 0x40 && d1 < 0x40 && d2 < 0x40
    requires cp % 0x40 == d0 && cp / 0x40 % 0x40 == d1 && cp / 0x1000 % 0x40 == d2 && cp / 0x4_0000 == d3
    ensures IsUtf8(CodePointToUtf8(cp), cp)
  {
    assert d3 % 8 == d3;
  }

  lemma Utf8Unique(cp: nat, b: string)
    requires cp <= 0x10FFFF && IsUtf8(b, cp)
    ensures b == CodePointToUtf8(cp)
  {
    if |b| == 2 {
      Bytes(cp, 0, 0, b[0] as int - 0xC0, b[1] as int - 0x80);
    } else if |b| == 3 {
      Bytes(cp, 0, b[0] as int - 0xE0, b[1] as int - 0x80, b[2] as int - 0x80);
    } else if |b| == 4 {
      Bytes(cp, b[0] as int - 0xF0, b[1] as int - 0x80, b[2] as int - 0x80, b[3] as int - 0x80);
    }
  }

  predicate IsScalar(cp: nat) {
    cp <= 0x10FFFF && !(0xD800 <= cp <= 0xDFFF)
  }

  /** Section 7 of RFC 8259: how a scalar value may be written with \u escapes. */
  ghost predicate IsEscapeOf(e: string, cp: nat) {
    || (cp <= 0xFFFF && |e| == 6 && e[..2] == "\\u" && IsHex4(e[2..], cp))
    || (cp > 0xFFFF && |e| == 12 && e[..2] == "\\u" && e[6..8] == "\\u"
        && IsHex4(e[2..6], 0xD800 + (cp - 0x10000) / 0x400)
        && IsHex4(e[8..], 0xDC00 + (cp - 0x10000) % 0x400))
  }

  function Flatten(parts: seq<string>): string {
    if parts == [] then "" else parts[0] + Flatten(parts[1..])
  }

  function AllUtf8(cps: seq<nat>): string {
    if cps == [] then "" else CodePointToUtf8(cps[0]) + AllUtf8(cps[1..])
  }

  lemma Hex4Reads(body: string, i: nat, h: string, n: nat)
    requires IsHex4(h, n) && i + 4 <= |body| && body[i..i + 4] == h
    ensures EscapeSequence(body, i) == Code(n, i + 4)
  {
    FourDigitsAre(body, i, n);
  }

  lemma PairReads(body: string, i: nat, high: nat, low: nat)
    requires 0xD800 <= high <= 0xDBFF && 0xDC00 <= low <= 0xDFFF
    requires i + 10 <= |body| && body[i + 4] == '\\' && body[i + 5] == 'u'
    requires EscapeSequence(body, i) == Code(high, i + 4)
    requires EscapeSequence(body, i + 6) == Code(low, i + 10)
    ensures CodePoint(body, i) == Code(0x10000 + (high - 0xD800) * 0x400 + (low - 0xDC00), i + 10)
  {
    hide EscapeSequence;
    assert high % 0x400 == high - 0xD800 && low % 0x400 == low - 0xDC00;
  }

  lemma EscapeOfReads(body: string, i: nat, e: string, cp: nat)
    requires IsScalar(cp) && IsEscapeOf(e, cp) && Occurs(body, i, e)
    ensures body[i] == '\\' && body[i + 1] == 'u'
    ensures CodePoint(body, i + 2) == Code(cp, i + |e|)
  {
    hide HexRun, EscapeSequence, HexValue, IsHex4;
    assert e == e[..2] + e[2..];
    OccursHead(body, i, e[..2], e[2..]);
    assert body[i] == e[..2][0] && body[i + 1] == e[..2][1];
    if cp <= 0xFFFF {
      Hex4Reads(body, i + 2, e[2..], cp);
    } else {
      var high, low := 0xD800 + (cp - 0x10000) / 0x400, 0xDC00 + (cp - 0x10000) % 0x400;
      assert e[2..][..4] == e[2..6] && e[2..][4..6] == e[6..8] && e[2..][6..] == e[8..];
      hide IsEscapeOf, CodePoint;
      PairOfReads(body, i + 2, e[2..], high, low);
    }
  }

  lemma PairOfReads(body: string, i: nat, e: string, high: nat, low: nat)
    requires |e| == 10 && Occurs(body, i, e) && e[4..6] == "\\u"
    requires IsHex4(e[..4], high) && IsHex4(e[6..], low)
    requires 0xD800 <= high <= 0xDBFF && 0xDC00 <= low <= 0xDFFF
    ensures CodePoint(body, i) == Code(0x10000 + (high - 0xD800) * 0x400 + (low - 0xDC00), i + 10)
  {
    hide HexRun, EscapeSequence, HexValue, CodePoint, IsHex4;
    assert e == e[..4] + e[4..] && e[4..] == e[4..6] + e[6..];
    OccursHead(body, i, e[..4], e[4..]);
    OccursHead(body, i + 4, e[4..6], e[6..]);
    assert body[i + 4] == e[4..6][0] && body[i + 5] == e[4..6][1];
    Hex4Reads(body, i, e[..4], high);
    Hex4Reads(body, i + 6, e[6..], low);
    PairReads(body, i, high, low);
  }

  lemma EscapeOfDecodes(body: string, i: nat, e: string, cp: nat, done: string)
    requires IsScalar(cp) && IsEscapeOf(e, cp) && Occurs(body, i, e)
    ensures Unescape(body, i, done) == Unescape(body, i + |e|, done + CodePointToUtf8(cp))
  {
    hide CodePoint, CodePointToUtf8, IsScalar, IsEscapeOf;
    EscapeOfReads(body, i, e, cp);
  }

  /** Any scalar values written as \u escapes, with surrogate pairs above
    * U+FFFF, decode to their UTF-8 one after another. */
  lemma {:induction false} EscapesDecodeToUtf8(body: string, i: nat, parts: seq<string>, cps: seq<nat>, done: string)
    requires |parts| == |cps|
    requires forall k :: 0 <= k < |cps| ==> IsScalar(cps[k]) && IsEscapeOf(parts[k], cps[k])
    requires i + |Flatten(parts)| == |body| && Occurs(body, i, Flatten(parts))
    ensures Unescape(body, i, done) == Text(done + AllUtf8(cps))
    decreases |parts|
  {
    if parts == [] {
      assert done + AllUtf8(cps) == done;
    } else {
      assert Flatten(parts) == parts[0] + Flatten(parts[1..]);
      assert AllUtf8(cps) == CodePointToUtf8(cps[0]) + AllUtf8(cps[1..]);
      hide Unescape, CodePointToUtf8, IsEscapeOf, IsScalar, Flatten, AllUtf8;
      OccursHead(body, i, parts[0], Flatten(parts[1..]));
      EscapeOfDecodes(body, i, parts[0], cps[0], done);
      hide Occurs;
      var now := done + CodePointToUtf8(cps[0]);
      EscapesDecodeToUtf8(body, i + |parts[0]|, parts[1..], cps[1..], now);
      Regroup<char>(done, CodePointToUtf8(cps[0]), AllUtf8(cps[1..]));
    }
  }
}
