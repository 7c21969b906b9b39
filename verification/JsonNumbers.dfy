/** Integers: printing into a fixed buffer and reading back without overflow. */
module JsonNumbers {
  import opened CStrings
  import opened JsonLexing
  import opened Lists

  const MAX_INT: nat := 0x7FFF_FFFF
  const MAX_LARGEST_UINT: nat := 0xFFFF_FFFF_FFFF_FFFF
  const MIN_LARGEST_INT: int := -0x8000_0000_0000_0000

  type Int64 = i: int | -0x8000_0000_0000_0000 <= i <= 0x7FFF_FFFF_FFFF_FFFF
  type UInt64 = u: int | 0 <= u <= 0xFFFF_FFFF_FFFF_FFFF

  // ---------------------------------------------------------------- decimal text

  function Digit(d: nat): (c: char)
    requires d < 10
    ensures IsDigit(c) && c as int - '0' as int == d
  {
    (d + '0' as int) as char
  }

  function Digits(n: nat): string {
    if n < 10 then [Digit(n)] else Digits(n / 10) + [Digit(n % 10)]
  }

  function Decimal(i: int): (text: string)
    ensures IsNumberText(text)
  {
    DigitsAreExact(if i < 0 then -i else i);
    if i < 0 then "-" + Digits(-i) else Digits(i)
  }

  predicate AreDigits(s: string) {
    forall i :: 0 <= i < |s| ==> IsDigit(s[i])
  }

  /** What a string of digits, of any length, is worth. */
  function Magnitude(s: string): nat
    requires AreDigits(s)
  {
    if s == "" then 0 else Magnitude(s[..|s| - 1]) * 10 + (s[|s| - 1] as int - '0' as int)
  }

  lemma {:induction false} DigitsAreExact(n: nat)
    ensures Digits(n) != "" && AreDigits(Digits(n))
    ensures Magnitude(Digits(n)) == n
  {
    if n < 10 {
      assert Digits(n)[..0] == "";
    } else {
      DigitsAreExact(n / 10);
      assert Digits(n)[..|Digits(n)| - 1] == Digits(n / 10);
    }
  }

  function Pow10(k: nat): nat {
    if k == 0 then 1 else 10 * Pow10(k - 1)
  }

  lemma {:induction false} DigitsFit(n: nat, k: nat)
    requires 0 < k && n < Pow10(k)
    ensures |Digits(n)| <= k
  {
    if n >= 10 {
      assert k > 1;
      DigitsFit(n / 10, k - 1);
    }
  }

  lemma SixtyFourBitsNeedTwentyDigits(u: UInt64)
    ensures |Digits(u)| <= 20
  {
    assert Pow10(8) == 1_0000_0000;
    assert Pow10(16) == 1_0000_0000_0000_0000;
    assert Pow10(20) == 1_0000_0000_0000_0000_0000;
    DigitsFit(u, 20);
  }

  lemma DigitsUnfold(n: nat)
    ensures Digits(n) == (if n < 10 then "" else Digits(n / 10)) + [Digit(n % 10)]
  {
  }

  // ---------------------------------------------------------------- printing

  /** Three bytes a byte, and the terminator. */
  const BUFFER_SIZE: nat := 3 * 8 + 1

  /** Writes the digits and a NUL backwards, ending at `current`. */
  method UintToString(value: UInt64, buffer: array<char>, current: nat) returns (start: nat)
    requires 21 <= current <= buffer.Length
    modifies buffer
    ensures start + |Digits(value)| + 1 == current
    ensures buffer[start..current] == Digits(value) + [NUL]
    ensures forall k :: 0 <= k < buffer.Length && !(start <= k < current) ==> buffer[k] == old(buffer[k])
  {
    SixtyFourBitsNeedTwentyDigits(value);
    hide Digits;
    start := current - 1;
    buffer[start] := NUL;
    var rest, more := value, true;
    ghost var tail := "";
    while more
      invariant 0 <= rest && start + |tail| + 1 == current
      invariant buffer[start..current] == tail + [NUL]
      invariant Digits(value) == (if more then Digits(rest) else "") + tail
      invariant forall k :: 0 <= k < buffer.Length && !(start <= k < current) ==> buffer[k] == old(buffer[k])
      decreases more, rest
    {
      ghost var before := buffer[start..current];
      DigitsUnfold(rest);
      start := start - 1;
      buffer[start] := Digit(rest % 10);
      assert buffer[start..current] == [Digit(rest % 10)] + before;
      Regroup<char>(if rest < 10 then "" else Digits(rest / 10), [Digit(rest % 10)], tail);
      tail := [Digit(rest % 10)] + tail;
      rest := rest / 10;
      more := rest != 0;
    }
  }

  /** Two's complement negation, which leaves the smallest number as it is. */
  function Negate(value: Int64): Int64 {
    if value == MIN_LARGEST_INT then value else -value
  }

  function ToUnsigned(value: Int64): UInt64 {
    if value < 0 then value + 0x1_0000_0000_0000_0000 else value
  }

  /** The C string that starts at `start` and ends before the last element. */
  method Printed(buffer: array<char>, start: nat) returns (s: string)
    requires start < buffer.Length && buffer[buffer.Length - 1] == NUL
    requires forall k :: start <= k < buffer.Length - 1 ==> buffer[k] != NUL
    ensures s == buffer[start..buffer.Length - 1]
  {
    var current := start;
    s := "";
    while buffer[current] != NUL
      invariant start <= current < buffer.Length
      invariant s == buffer[start..current]
      decreases buffer.Length - current
    {
      s := s + [buffer[current]];
      current := current + 1;
    }
  }

  /** A buffer that ends in some digits and the NUL. */
  lemma EndsInDigits(b: seq<char>, start: nat, u: UInt64)
    requires start <= |b| && b[start..] == Digits(u) + [NUL]
    ensures start < |b| && b[|b| - 1] == NUL && b[start..|b| - 1] == Digits(u)
    ensures forall k :: start <= k < |b| - 1 ==> b[k] != NUL
  {
    DigitsAreExact(u);
    var d := Digits(u);
    hide Digits, Magnitude;
    assert |b| - start == |d| + 1;
    forall k | 0 <= k <= |d| ensures b[start + k] == (d + [NUL])[k] {
      assert b[start..][k] == b[start + k];
    }
  }

  method SignedToString(value: Int64) returns (s: string)
    ensures s == Decimal(value)
  {
    var buffer := new char[BUFFER_SIZE];
    var isNegative := value < 0;
    var magnitude := if isNegative then Negate(value) else value;
    assert ToUnsigned(magnitude) == (if value < 0 then 0 - value else value) as int;
    hide Digits;
    var current := UintToString(ToUnsigned(magnitude), buffer, BUFFER_SIZE);
    assert buffer[..][current..] == buffer[current..BUFFER_SIZE];
    EndsInDigits(buffer[..], current, ToUnsigned(magnitude));
    SixtyFourBitsNeedTwentyDigits(ToUnsigned(magnitude));
    ghost var digits := buffer[current..BUFFER_SIZE - 1];
    assert digits == Digits(ToUnsigned(magnitude));
    if isNegative {
      current := current - 1;
      buffer[current] := '-';
      assert buffer[current + 1..BUFFER_SIZE - 1] == digits;
      assert buffer[current..BUFFER_SIZE - 1] == "-" + digits;
    }
    s := Printed(buffer, current);
  }

  method UnsignedToString(value: UInt64) returns (s: string)
    ensures s == Decimal(value)
  {
    var buffer := new char[BUFFER_SIZE];
    var current := UintToString(value, buffer, BUFFER_SIZE);
    assert buffer[..][current..] == buffer[current..BUFFER_SIZE];
    EndsInDigits(buffer[..], current, value);
    hide Digits;
    s := Printed(buffer, current);
  }

  // ---------------------------------------------------------------- reading

  /** Text that can stand as a number token. */
  type NumberText = s: string | IsNumberText(s) witness "0"

  datatype Number = Signed(i: Int64) | Unsigned(u: UInt64) | Double(text: NumberText) | NotANumber

  predicate InDouble(text: string, i: nat)
    requires i < |text|
  {
    text[i] == '.' || text[i] == 'e' || text[i] == 'E' || text[i] == '+' || (text[i] == '-' && i != 0)
  }

  predicate IsDouble(text: string) {
    exists i :: 0 <= i < |text| && InDouble(text, i)
  }

  predicate IsNegative(text: string)
    requires text != ""
  {
    text[0] == '-'
  }

  function Unsign(text: string): string
    requires text != ""
  {
    if IsNegative(text) then text[1..] else text
  }

  /** Floating point is left to `scan`, which says whether the C library reads the text. */
  function AsDouble(text: NumberText, scan: string -> bool): Number {
    if scan(text) then Double(text) else NotANumber
  }

  /** What a number token means: an integer when it is written as one and fits
    * in 64 bits, and otherwise a floating point number. */
  function Meaning(text: string, scan: string -> bool): Number
    requires IsNumberText(text)
  {
    if IsDouble(text) then AsDouble(text, scan) else
    var m: int := Magnitude(PlainDigits(text));
    if IsNegative(text) then
      if m <= -MIN_LARGEST_INT then Signed(-m) else AsDouble(text, scan)
    else if m <= MAX_INT then Signed(m)
    else if m <= MAX_LARGEST_UINT then Unsigned(m)
    else AsDouble(text, scan)
  }

  function PlainDigits(text: string): (s: string)
    requires IsNumberText(text) && !IsDouble(text)
    ensures AreDigits(s)
  {
    assert forall i :: 0 <= i < |text| ==> !InDouble(text, i) && IsNumberChar(text[i]);
    assert forall i :: 0 < i < |text| ==> IsDigit(text[i]);
    Unsign(text)
  }

  /** Every character after an optional minus sign is a digit. */
  predicate IsWholeNumber(text: string) {
    text != "" && AreDigits(if text[0] == '-' then text[1..] else text)
  }

  /** How any number token reads. A whole number is an integer exactly when its
    * size is at most 2^64 - 1, or 2^63 after a minus sign, and then it is that
    * integer, unsigned from 2^31 on. Everything else is floating point. */
  predicate ReadsAs(text: string, scan: string -> bool, number: Number)
    requires IsNumberText(text)
  {
    var double := if scan(text) then Double(text) else NotANumber;
    if !IsWholeNumber(text) then number == double else
    var negative := text[0] == '-';
    var size: int := Magnitude(if negative then text[1..] else text);
    var limit := if negative then 0x8000_0000_0000_0000 else 0xFFFF_FFFF_FFFF_FFFF;
    && (size <= limit <==> number.Signed? || number.Unsigned?)
    && (number.Signed? ==> number.i == (if negative then -size else size) < 0x8000_0000)
    && (number.Unsigned? ==> number.u == size >= 0x8000_0000 && !negative)
    && (size > limit ==> number == double)
  }

  lemma MeaningIsExact(text: string, scan: string -> bool, number: Number)
    requires IsNumberText(text)
    ensures number == Meaning(text, scan) <==> ReadsAs(text, scan, number)
  {
    WholeIsPlain(text);
    hide Magnitude;
  }

  /** Whole numbers are the texts without a point, an exponent or a sign inside. */
  lemma WholeIsPlain(text: string)
    requires IsNumberText(text)
    ensures IsWholeNumber(text) <==> !IsDouble(text)
    ensures IsWholeNumber(text) <==>
      forall i :: 0 <= i < |text| ==> text[i] !in ['.', 'e', 'E', '+'] && (i > 0 ==> text[i] != '-')
  {
    var digits := Unsign(text);
    if IsDouble(text) {
      var i :| 0 <= i < |text| && InDouble(text, i);
      assert !IsDigit(digits[if IsNegative(text) then i - 1 else i]);
    } else {
      assert forall i :: 0 <= i < |text| ==> !InDouble(text, i) && IsNumberChar(text[i]);
      assert forall i :: 0 < i < |text| ==> IsDigit(text[i]);
      assert AreDigits(digits);
    }
  }

  lemma {:induction false} MagnitudeGrows(s: string, k: nat)
    requires AreDigits(s) && k <= |s|
    ensures Magnitude(s) >= Magnitude(s[..k])
    ensures k < |s| ==> Magnitude(s) >= 10 * Magnitude(s[..k])
    decreases |s| - k
  {
    if k == |s| {
      assert s[..k] == s;
    } else {
      MagnitudeStep(s, k);
      MagnitudeGrows(s, k + 1);
    }
  }

  lemma MagnitudeStep(s: string, k: nat)
    requires AreDigits(s) && k < |s|
    ensures Magnitude(s[..k + 1]) == 10 * Magnitude(s[..k]) + (s[k] as int - '0' as int)
  {
    assert s[..k + 1][..k] == s[..k];
  }

  lemma NoDigits(s: string)
    ensures Magnitude(s[..0]) == 0
  {
  }

  /** One more digit either fits or shows that the whole number does not. */
  lemma OneMoreDigit(s: string, k: nat, value: int, max: int)
    requires AreDigits(s) && k < |s| && value == Magnitude(s[..k]) <= max
    requires max == -MIN_LARGEST_INT || max == MAX_LARGEST_UINT
    ensures
      var digit := s[k] as int - '0' as int;
      if value >= max / 10 && (value > max / 10 || k + 1 != |s| || digit > max % 10) then Magnitude(s) > max
      else value * 10 + digit == Magnitude(s[..k + 1]) <= max
  {
    MagnitudeStep(s, k);
    MagnitudeGrows(s, k + 1);
  }

  /** Accumulates in 64 bits without ever wrapping: every intermediate value is
    * stored in a `UInt64`. */
  method DecodeNumber(text: string, scan: string -> bool) returns (number: Number)
    requires IsNumberText(text)
    ensures number == Meaning(text, scan) && ReadsAs(text, scan, number)
  {
    hide ReadsAs, Magnitude, IsNumberChar;
    MeaningIsExact(text, scan, Meaning(text, scan));
    var isDouble := false;
    for inspect := 0 to |text|
      invariant isDouble <==> exists i :: 0 <= i < inspect && InDouble(text, i)
    {
      isDouble := isDouble || InDouble(text, inspect);
    }
    if isDouble { return AsDouble(text, scan); }
    var isNegative := text[0] == '-';
    ghost var digits := PlainDigits(text);
    NoDigits(digits);
    var current := if isNegative then 1 else 0;
    ghost var first := current;
    var maxIntegerValue: UInt64 := if isNegative then -MIN_LARGEST_INT else MAX_LARGEST_UINT;
    var threshold := maxIntegerValue / 10;
    var value: UInt64 := 0;
    while current < |text|
      invariant first <= current <= |text|
      invariant value == Magnitude(digits[..current - first]) <= maxIntegerValue
    {
      var digit := text[current] as int - '0' as int;
      assert digits[current - first] == text[current];
      // so the test for a character that is not a digit never fires
      assert IsDigit(text[current]);
      OneMoreDigit(digits, current - first, value, maxIntegerValue);
      current := current + 1;
      if value >= threshold && (value > threshold || current != |text| || digit > maxIntegerValue % 10) {
        return AsDouble(text, scan);
      }
      value := value * 10 + digit;
    }
    assert digits[..current - first] == digits;
    if isNegative {
      number := Signed(Negate(if value == -MIN_LARGEST_INT then MIN_LARGEST_INT else value));
    } else if value <= MAX_INT {
      number := Signed(value);
    } else {
      number := Unsigned(value);
    }
  }

  // ---------------------------------------------------------------- the round trip

  lemma DecimalIsPlain(i: int)
    ensures !IsDouble(Decimal(i))
    ensures Magnitude(PlainDigits(Decimal(i))) == if i < 0 then -i else i
  {
    DigitsAreExact(if i < 0 then -i else i);
    if i < 0 {
      assert Decimal(i)[1..] == Digits(-i);
      assert forall k :: 0 < k < |Decimal(i)| ==> Decimal(i)[k] == Digits(-i)[k - 1];
    }
  }

  /** Every 64-bit integer the writers print reads back, re-tagged by size. */
  lemma IntegerRoundTrip(i: int, scan: string -> bool)
    requires MIN_LARGEST_INT <= i <= MAX_LARGEST_UINT
    ensures Meaning(Decimal(i), scan) == if i <= MAX_INT then Signed(i) else Unsigned(i)
  {
    DecimalIsPlain(i);
    DigitsAreExact(if i < 0 then -i else i);
  }
}
