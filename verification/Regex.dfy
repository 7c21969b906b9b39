/** The simple regular expressions of the test framework: what they mean, when
  * they are valid, and the matcher that looks for them. */
module Regex {
  import opened CStrings

  // ---------------------------------------------------------------- characters

  predicate IsInSet(ch: char, set_: string) {
    ch != NUL && ch in set_
  }

  predicate IsAsciiDigit(ch: char) {
    '0' <= ch <= '9'
  }

  predicate IsAsciiPunct(ch: char) {
    IsInSet(ch, "^-!\"#$%&'()*+,./:;<=>?@[\\]_`{|}~")
  }

  predicate IsRepeat(ch: char) {
    IsInSet(ch, "?*+")
  }

  predicate IsUnsupported(ch: char) {
    IsInSet(ch, "()[]{}|")
  }

  predicate IsRepeatable(ch: char) {
    !IsInSet(ch, "^$?*+")
  }

  const FORM_FEED: char := 12 as char
  const VERTICAL_TAB: char := 11 as char

  predicate IsAsciiWhiteSpace(ch: char) {
    IsInSet(ch, [' ', FORM_FEED, '\n', '\r', '\t', VERTICAL_TAB])
  }

  predicate IsAsciiWordChar(ch: char) {
    'a' <= ch <= 'z' || 'A' <= ch <= 'Z' || '0' <= ch <= '9' || ch == '_'
  }

  predicate IsValidEscape(c: char) {
    IsAsciiPunct(c) || IsInSet(c, "dDfnrsStvwW")
  }

  predicate AtomMatchesChar(escaped: bool, patternChar: char, ch: char) {
    if escaped then
      match patternChar
      case 'd' => IsAsciiDigit(ch)
      case 'D' => !IsAsciiDigit(ch)
      case 'f' => ch == FORM_FEED
      case 'n' => ch == '\n'
      case 'r' => ch == '\r'
      case 's' => IsAsciiWhiteSpace(ch)
      case 'S' => !IsAsciiWhiteSpace(ch)
      case 't' => ch == '\t'
      case 'v' => ch == VERTICAL_TAB
      case 'w' => IsAsciiWordChar(ch)
      case 'W' => !IsAsciiWordChar(ch)
      case _ => IsAsciiPunct(patternChar) && patternChar == ch
    else
      (patternChar == '.' && ch != '\n') || patternChar == ch
  }

  predicate IsAlphanumeric(n: int) {
    48 <= n <= 57 || 65 <= n <= 90 || 97 <= n <= 122
  }

  /** The classes by their ASCII codes: punctuation is every printable character
    * that is no letter, no digit and no space. */
  lemma ClassesByCode(ch: char)
    ensures IsAsciiDigit(ch) <==> 48 <= ch as int <= 57
    ensures IsAsciiWhiteSpace(ch) <==> 9 <= ch as int <= 13 || ch as int == 32
    ensures IsAsciiWordChar(ch) <==> IsAlphanumeric(ch as int) || ch as int == 95
    ensures IsAsciiPunct(ch) <==> 33 <= ch as int <= 126 && !IsAlphanumeric(ch as int)
  {
    PunctuationByCode(ch);
    assert IsAsciiWhiteSpace(ch) <==> ch == '\t' || ch == '\n' || ch == VERTICAL_TAB || ch == FORM_FEED || ch == '\r' || ch == ' ';
  }

  lemma PunctuationByCode(ch: char)
    ensures IsAsciiPunct(ch) <==> 33 <= ch as int <= 126 && !IsAlphanumeric(ch as int)
  {
    var n := ch as int;
    assert IsAsciiPunct(ch) ==> 33 <= n <= 126 && !IsAlphanumeric(n);
    if 33 <= n <= 47 {
      assert n in [33, 34, 35, 36, 37, 38, 39, 40, 41, 42, 43, 44, 45, 46, 47];
    } else if 58 <= n <= 64 {
      assert n in [58, 59, 60, 61, 62, 63, 64];
    } else if 91 <= n <= 96 {
      assert n in [91, 92, 93, 94, 95, 96];
    } else if 123 <= n <= 126 {
      assert n in [123, 124, 125, 126];
    }
  }

  /** What each atom matches: a letter in upper case the opposite of the one in
    * lower case, a control letter its one character, punctuation itself. */
  lemma AtomsByCode(c: char, ch: char)
    ensures AtomMatchesChar(true, 'd', ch) <==> 48 <= ch as int <= 57
    ensures AtomMatchesChar(true, 's', ch) <==> 9 <= ch as int <= 13 || ch as int == 32
    ensures AtomMatchesChar(true, 'w', ch) <==> IsAlphanumeric(ch as int) || ch as int == 95
    ensures AtomMatchesChar(true, 'D', ch) <==> !AtomMatchesChar(true, 'd', ch)
    ensures AtomMatchesChar(true, 'S', ch) <==> !AtomMatchesChar(true, 's', ch)
    ensures AtomMatchesChar(true, 'W', ch) <==> !AtomMatchesChar(true, 'w', ch)
    ensures forall k :: 0 <= k < 5 ==> (AtomMatchesChar(true, "tnvfr"[k], ch) <==> ch as int == 9 + k)
    ensures 33 <= c as int <= 126 && !IsAlphanumeric(c as int) ==> (AtomMatchesChar(true, c, ch) <==> c == ch)
    ensures AtomMatchesChar(true, c, ch) && !IsAlphanumeric(c as int) ==> c == ch
    ensures AtomMatchesChar(true, c, ch) && IsAlphanumeric(c as int) ==> IsValidEscape(c)
    ensures AtomMatchesChar(false, '.', ch) <==> ch as int != 10
    ensures c != '.' ==> (AtomMatchesChar(false, c, ch) <==> c == ch)
  {
    ClassesByCode(ch);
    ClassesByCode(c);
    hide IsAsciiPunct, IsAsciiWhiteSpace, IsAsciiDigit, IsAsciiWordChar;
  }

  // ---------------------------------------------------------------- the grammar

  /** A character that stands for itself (or, for a dot, for almost any). */
  predicate IsPlain(ch: char) {
    ch != '\\' && !IsInSet(ch, "^$()[]{}|?*+")
  }

  /** How long the atom at the front is, or 0 when there is none. */
  function AtomLength(s: string): (k: nat)
    ensures k <= |s|
  {
    if s == "" then 0
    else if s[0] == '\\' then if |s| > 1 && IsValidEscape(s[1]) then 2 else 0
    else if IsPlain(s[0]) then 1 else 0
  }

  /** How long the item at the front is: an atom and perhaps a repetition sign. */
  function ItemLength(s: string): (k: nat)
    ensures k <= |s|
    ensures k > 0 <==> AtomLength(s) > 0
  {
    var k := AtomLength(s);
    if k > 0 && IsRepeat(At(s, k)) then k + 1 else k
  }

  /** Items, and perhaps a dollar sign at the very end. */
  predicate IsSimple(s: string) {
    s == "" || s == "$" || (ItemLength(s) > 0 && IsSimple(s[ItemLength(s)..]))
  }

  /** A valid regular expression, which may start with a caret. */
  predicate IsRegex(s: string) {
    IsSimple(if s != "" && s[0] == '^' then s[1..] else s)
  }

  /** Every character stands for itself but these: $ ( ) * + ? [ \ ] ^ { | } */
  lemma PlainByCode(ch: char)
    ensures IsPlain(ch) <==> ch as int !in {36, 40, 41, 42, 43, 63, 91, 92, 93, 94, 123, 124, 125}
  {
  }

  /** The validator lets through exactly the escapes that match something. */
  lemma ValidEscapesMatch(c: char)
    ensures IsValidEscape(c) <==> exists ch :: AtomMatchesChar(true, c, ch)
  {
    ClassesByCode(c);
    hide IsAsciiPunct;
    if IsValidEscape(c) {
      var ch :=
        match c
        case 'd' => '0'
        case 'f' => FORM_FEED
        case 'n' => '\n'
        case 'r' => '\r'
        case 's' => ' '
        case 't' => '\t'
        case 'v' => VERTICAL_TAB
        case 'w' => 'a'
        case 'D' => 'a'
        case 'S' => 'a'
        case 'W' => ' '
        case _ => c;
      assert AtomMatchesChar(true, c, ch);
    }
  }

  // ---------------------------------------------------------------- the meaning

  datatype Repetition = Once | AtMostOnce | AnyNumber | AtLeastOnce

  datatype Item = Item(escaped: bool, c: char, repetition: Repetition)

  /** `ends` says that the match must end where the text ends. */
  datatype Pattern = Pattern(items: seq<Item>, ends: bool)

  function RepetitionOf(sign: char): Repetition {
    if sign == '?' then AtMostOnce
    else if sign == '*' then AnyNumber
    else if sign == '+' then AtLeastOnce
    else Once
  }

  predicate Allows(r: Repetition, k: nat) {
    match r
    case Once => k == 1
    case AtMostOnce => k <= 1
    case AnyNumber => true
    case AtLeastOnce => k >= 1
  }

  /** How often an atom may occur before each sign. */
  lemma RepetitionsBySign(sign: char, k: nat)
    ensures Allows(RepetitionOf(sign), k) <==>
      (sign == '?' ==> k < 2) && (sign == '+' ==> k > 0) && (sign !in {'?', '*', '+'} ==> k == 1)
  {
  }

  function FirstItem(s: string): Item
    requires ItemLength(s) > 0
  {
    var k := AtomLength(s);
    Item(s[0] == '\\', s[k - 1], RepetitionOf(At(s, k)))
  }

  function Parse(s: string): Pattern
    requires IsSimple(s)
  {
    if s == "" then Pattern([], false)
    else if s == "$" then Pattern([], true)
    else
      var rest := Parse(s[ItemLength(s)..]);
      Pattern([FirstItem(s)] + rest.items, rest.ends)
  }

  predicate AtomMatchesAll(item: Item, w: string) {
    forall k :: 0 <= k < |w| ==> AtomMatchesChar(item.escaped, item.c, w[k])
  }

  /** The words of a list of items: each item takes as many characters as it may. */
  ghost predicate InLanguage(items: seq<Item>, w: string)
    decreases |items|
  {
    if items == [] then w == "" else
    exists k :: 0 <= k <= |w| && Allows(items[0].repetition, k)
      && AtomMatchesAll(items[0], w[..k]) && InLanguage(items[1..], w[k..])
  }

  /** Some prefix is a word, all of the text if the pattern ends there. */
  ghost predicate MatchesAtHead(p: Pattern, str: string) {
    exists k :: 0 <= k <= |str| && (p.ends ==> k == |str|) && InLanguage(p.items, str[..k])
  }

  /** Some substring is a word, or some prefix when the expression starts with a caret. */
  ghost predicate MatchesAnywhere(regex: string, str: string)
    requires IsRegex(regex)
  {
    if regex != "" && regex[0] == '^' then MatchesAtHead(Parse(regex[1..]), str)
    else exists i :: 0 <= i <= |str| && MatchesAtHead(Parse(regex), str[i..])
  }

  /** The first item takes some characters and the rest matches what follows. */
  ghost predicate TakesThenMatches(item: Item, rest: Pattern, str: string, k: nat) {
    && k <= |str| && Allows(item.repetition, k)
    && AtomMatchesAll(item, str[..k]) && MatchesAtHead(rest, str[k..])
  }

  ghost predicate SomeTake(item: Item, rest: Pattern, str: string) {
    exists k :: 0 <= k <= |str| && TakesThenMatches(item, rest, str, k)
  }

  lemma FirstThenRest(item: Item, rest: Pattern, str: string)
    ensures MatchesAtHead(Pattern([item] + rest.items, rest.ends), str) <==> SomeTake(item, rest, str)
  {
    if MatchesAtHead(Pattern([item] + rest.items, rest.ends), str) { WordSplits(item, rest, str); }
    if SomeTake(item, rest, str) { PartsJoin(item, rest, str); }
  }

  lemma WordSplits(item: Item, rest: Pattern, str: string)
    requires MatchesAtHead(Pattern([item] + rest.items, rest.ends), str)
    ensures SomeTake(item, rest, str)
  {
    var items := [item] + rest.items;
    assert items[0] == item && items[1..] == rest.items;
    var n :| 0 <= n <= |str| && (rest.ends ==> n == |str|) && InLanguage(items, str[..n]);
    var k :| 0 <= k <= n && Allows(item.repetition, k)
      && AtomMatchesAll(item, str[..n][..k]) && InLanguage(rest.items, str[..n][k..]);
    assert str[..n][..k] == str[..k] && str[..n][k..] == str[k..][..n - k];
    hide InLanguage, AtomMatchesAll;
    assert TakesThenMatches(item, rest, str, k);
  }

  lemma PartsJoin(item: Item, rest: Pattern, str: string)
    requires SomeTake(item, rest, str)
    ensures MatchesAtHead(Pattern([item] + rest.items, rest.ends), str)
  {
    var items := [item] + rest.items;
    assert items[0] == item && items[1..] == rest.items;
    var k :| 0 <= k <= |str| && TakesThenMatches(item, rest, str, k);
    var n :| 0 <= n <= |str[k..]| && (rest.ends ==> n == |str[k..]|) && InLanguage(rest.items, str[k..][..n]);
    var w := str[..k + n];
    assert w[..k] == str[..k] && w[k..] == str[k..][..n];
    hide AtomMatchesAll;
    assert InLanguage(items, w);
  }

  // ---------------------------------------------------------------- validation

  /** Only at the first position may a caret stand. */
  predicate IsRefused(ch: char, first: bool, more: bool, repeatable: bool) {
    (ch == '^' && !first) || (ch == '$' && more) || IsUnsupported(ch) || (IsRepeat(ch) && !repeatable)
  }

  /** What the validator still demands of the rest of the expression, where
    * `repeatable` says whether a repetition sign may stand first. */
  predicate GoesOn(t: string, repeatable: bool) {
    if t == "" then true
    else if t[0] == '\\' then |t| > 1 && IsValidEscape(t[1]) && GoesOn(t[2..], true)
    else !IsRefused(t[0], false, |t| > 1, repeatable) && GoesOn(t[1..], IsRepeatable(t[0]))
  }

  /** The validator's bookkeeping accepts exactly what the grammar allows. */
  lemma {:induction false} GoesOnIsSimple(t: string)
    ensures GoesOn(t, false) <==> IsSimple(t)
    ensures GoesOn(t, true) <==> IsSimple(if IsRepeat(At(t, 0)) then t[1..] else t)
    decreases |t|, 1
  {
    if t == "" {
    } else if t[0] == '\\' {
      assert !IsRepeat(t[0]);
      if |t| > 1 { AtomGoesOn(t, 2); }
    } else {
      GoesOnIsSimple(t[1..]);
      Characters(t[0]);
      if IsPlain(t[0]) {
        AtomGoesOn(t, 1);
        hide IsSimple, IsInSet;
      } else {
        assert t[0] == '$' && |t| == 1 ==> t == "$";
        hide IsInSet;
      }
    }
  }

  /** How the sets of characters that the validator looks at overlap. */
  lemma Characters(ch: char)
    requires ch != '\\'
    ensures IsPlain(ch) <==> !(ch == '^' || ch == '$' || IsUnsupported(ch) || IsRepeat(ch))
    ensures IsRepeatable(ch) <==> !(ch == '^' || ch == '$' || IsRepeat(ch))
  {
  }

  lemma {:induction false} AtomGoesOn(t: string, k: nat)
    requires 0 < k <= 2 && k <= |t| && (k == 2 <==> t[0] == '\\') && (k == 1 ==> IsPlain(t[0]))
    ensures k == 2 && !IsValidEscape(t[1]) ==> !IsSimple(t)
    ensures (k == 2 && IsValidEscape(t[1])) || k == 1 ==> (GoesOn(t[k..], true) <==> IsSimple(t))
    decreases |t|, 0
  {
    GoesOnIsSimple(t[k..]);
    assert At(t[k..], 0) == At(t, k);
    if IsRepeat(At(t, k)) { assert t[k..][1..] == t[k + 1..]; }
  }

  /** What is still demanded at a position of the whole expression. */
  ghost predicate Demand(s: string, i: nat, repeatable: bool)
    requires i <= |s|
  {
    if i == 0 then IsRegex(s) else GoesOn(s[i..], repeatable)
  }

  /** One round of the validator. */
  lemma OneRound(s: string, i: nat, repeatable: bool)
    requires i < |s| && (i == 0 ==> !repeatable)
    ensures s[i] == '\\' ==> (Demand(s, i, repeatable) <==>
      (i + 1 < |s| && IsValidEscape(s[i + 1]) && Demand(s, i + 2, true)))
    ensures s[i] != '\\' ==> (Demand(s, i, repeatable) <==>
      (!IsRefused(s[i], i == 0, i + 1 < |s|, repeatable) && Demand(s, i + 1, IsRepeatable(s[i]))))
  {
    var t := s[i..];
    assert t[1..] == s[i + 1..];
    if |t| > 1 { assert t[2..] == s[i + 2..]; }
    if i == 0 {
      assert t == s;
      assert !IsRepeatable('^') && !IsUnsupported('^') && !IsRepeat('^');
      hide IsRepeatable, IsUnsupported, IsRepeat, IsSimple, IsValidEscape;
      GoesOnIsSimple(if s[0] == '^' then s[1..] else s);
    }
  }

  lemma DemandAtStart(s: string)
    ensures Demand(s, 0, false) <==> IsRegex(s)
  {
  }

  lemma NothingMore(s: string, repeatable: bool)
    ensures Demand(s, |s|, repeatable)
  {
  }

  method ValidateRegex(regex: CString) returns (isValid: bool)
    ensures isValid <==> IsRegex(regex)
  {
    hide IsRepeatable, IsUnsupported, IsValidEscape, IsRepeat, IsRegex, Demand;
    isValid := true;
    var prevRepeatable := false;
    var i := 0;
    DemandAtStart(regex);
    while i < |regex|
      invariant 0 <= i <= |regex|
      invariant i == 0 ==> !prevRepeatable
      invariant IsRegex(regex) <==> (isValid && Demand(regex, i, prevRepeatable))
      decreases |regex| - i
    {
      OneRound(regex, i, prevRepeatable);
      if regex[i] == '\\' {
        i := i + 1;
        if At(regex, i) == NUL { return false; }
        if !IsValidEscape(regex[i]) { isValid := false; }
        prevRepeatable := true;
      } else {
        var ch := regex[i];
        if ch == '^' && i > 0 {
          isValid := false;
        } else if ch == '$' && At(regex, i + 1) != NUL {
          isValid := false;
        } else if IsUnsupported(ch) {
          isValid := false;
        } else if IsRepeat(ch) && !prevRepeatable {
          isValid := false;
        }
        prevRepeatable := IsRepeatable(ch);
      }
      i := i + 1;
    }
    NothingMore(regex, prevRepeatable);
  }

  // ---------------------------------------------------------------- matching

  /** The largest number of repetitions that the loop tries. */
  const MAX_COUNT: nat := 0xFFFF_FFFF_FFFF_FFFE

  /** The text must be indexable by a 64-bit size. */
  predicate IsIndexable(str: string) {
    |str| <= MAX_COUNT
  }

  method MatchRepetitionAndRegexAtHead(escaped: bool, c: char, repeat_: char, regex: CString, str: CString)
    returns (matched: bool)
    requires IsRepeat(repeat_) && IsSimple(regex) && IsIndexable(str)
    ensures matched <==> SomeTake(Item(escaped, c, RepetitionOf(repeat_)), Parse(regex), str)
    decreases |regex|, 3
  {
    ghost var item := Item(escaped, c, RepetitionOf(repeat_));
    ghost var rest := Parse(regex);
    var minCount := if repeat_ == '+' then 1 else 0;
    var maxCount := if repeat_ == '?' then 1 else MAX_COUNT;
    hide MatchesAtHead, InLanguage, Parse, IsSimple;
    var i := 0;
    while i <= maxCount
      invariant 0 <= i <= |str| + 1 && i <= maxCount + 1
      invariant i <= |str| ==> AtomMatchesAll(item, str[..i])
      invariant i == |str| + 1 ==> false
      invariant forall k :: 0 <= k < i ==> !TakesThenMatches(item, rest, str, k)
      decreases maxCount + 1 - i
    {
      if i >= minCount {
        var tail := MatchRegexAtHead(regex, str[i..]);
        if tail {
          assert TakesThenMatches(item, rest, str, i);
          return true;
        }
      }
      assert !TakesThenMatches(item, rest, str, i);
      if At(str, i) == NUL || !AtomMatchesChar(escaped, c, str[i]) {
        NoFurther(item, rest, str, i);
        return false;
      }
      i := i + 1;
    }
    assert forall k :: i <= k <= |str| ==> !Allows(item.repetition, k);
    return false;
  }

  /** A character that the atom does not match stops every longer repetition. */
  lemma NoFurther(item: Item, rest: Pattern, str: string, i: nat)
    requires i == |str| || (i < |str| && !AtomMatchesChar(item.escaped, item.c, str[i]))
    ensures forall k :: i < k <= |str| ==> !TakesThenMatches(item, rest, str, k)
  {
    forall k | i < k <= |str| ensures !TakesThenMatches(item, rest, str, k) {
      assert str[..k][i] == str[i];
    }
  }

  method MatchRegexAtHead(regex: CString, str: CString) returns (matched: bool)
    requires IsSimple(regex) && IsIndexable(str)
    ensures matched <==> MatchesAtHead(Parse(regex), str)
    decreases |regex|, 2
  {
    if regex == "" {
      assert str[..0] == "";
      return true;
    }
    if regex[0] == '$' {
      EndMatches(str);
      return str == "";
    }
    ghost var item, rest := FirstItem(regex), Parse(regex[ItemLength(regex)..]);
    FirstThenRest(item, rest, str);
    var escaped := regex[0] == '\\';
    var start := if escaped then 1 else 0;
    assert AtomLength(regex) == start + 1;
    assert Parse(regex) == Pattern([item] + rest.items, rest.ends);
    assert item == Item(escaped, regex[start], RepetitionOf(At(regex, start + 1)));
    hide MatchesAtHead, InLanguage, SomeTake, Parse;
    if IsRepeat(At(regex, start + 1)) {
      matched := MatchRepetitionAndRegexAtHead(
        escaped, regex[start], regex[start + 1], regex[start + 2..], str);
    } else {
      OnceThenRest(item, rest, str);
      matched := false;
      if str != "" && AtomMatchesChar(escaped, regex[start], str[0]) {
        matched := MatchRegexAtHead(regex[start + 1..], str[1..]);
      }
    }
  }

  lemma EndMatches(str: string)
    ensures MatchesAtHead(Pattern([], true), str) <==> str == ""
  {
    assert str[..|str|] == str;
  }

  lemma OnceThenRest(item: Item, rest: Pattern, str: string)
    requires item.repetition == Once
    ensures SomeTake(item, rest, str)
      <==> str != "" && AtomMatchesChar(item.escaped, item.c, str[0]) && MatchesAtHead(rest, str[1..])
  {
    hide MatchesAtHead;
    if str != "" {
      assert str[..1][0] == str[0];
      assert TakesThenMatches(item, rest, str, 1)
        <==> AtomMatchesChar(item.escaped, item.c, str[0]) && MatchesAtHead(rest, str[1..]);
    }
  }

  method MatchRegexAnywhere(regex: CString, str: CString) returns (matched: bool)
    requires IsRegex(regex) && IsIndexable(str)
    ensures matched <==> MatchesAnywhere(regex, str)
  {
    hide MatchesAtHead, Parse, IsSimple;
    if At(regex, 0) == '^' {
      matched := MatchRegexAtHead(regex[1..], str);
      return;
    }
    var start := 0;
    while true
      invariant 0 <= start <= |str|
      invariant forall i :: 0 <= i < start ==> !MatchesAtHead(Parse(regex), str[i..])
      decreases |str| - start
    {
      matched := MatchRegexAtHead(regex, str[start..]);
      if matched { return; }
      if At(str, start) == NUL { break; }
      start := start + 1;
    }
    return false;
  }
}
