/** JSON values and the tokens they are written as. */
module JsonValues {
  import opened CStrings
  import opened JsonLexing
  import opened JsonStrings
  import opened JsonNumbers

  /** Arrays are dense, and the members of an object are kept in key order. A
    * real is represented by the text that stands for it. */
  datatype Value =
    | Null
    | Bool(b: bool)
    | Int(i: Int64)
    | UInt(u: UInt64)
    | Real(text: NumberText)
    | Str(s: CString)
    | Arr(items: seq<Value>)
    | Obj(members: seq<Member>)

  datatype Member = Member(name: CString, value: Value)

  // ---------------------------------------------------------------- the key order

  /** strcmp(a, b) < 0 */
  predicate Less(a: string, b: string) {
    b != "" && (a == "" || a[0] < b[0] || (a[0] == b[0] && Less(a[1..], b[1..])))
  }

  /** The first place where the strings differ decides, and a proper prefix comes first. */
  lemma {:induction false} LessIsLexicographic(a: string, b: string)
    ensures Less(a, b) <==> exists k: nat :: Differ(a, b, k)
  {
    if Less(a, b) {
      if a == "" || a[0] < b[0] {
        assert Differ(a, b, 0);
      } else {
        LessIsLexicographic(a[1..], b[1..]);
        var k: nat :| Differ(a[1..], b[1..], k);
        assert a[..k + 1] == [a[0]] + a[1..][..k] && b[..k + 1] == [b[0]] + b[1..][..k];
        assert Differ(a, b, k + 1);
      }
    } else if k: nat :| Differ(a, b, k) {
      assert k > 0 && a[..k][0] == b[..k][0];
      assert a[1..][..k - 1] == a[..k][1..] && b[1..][..k - 1] == b[..k][1..];
      assert Differ(a[1..], b[1..], k - 1);
      LessIsLexicographic(a[1..], b[1..]);
    }
  }

  /** The strings agree before `k`, and there the first ends or has the smaller byte. */
  ghost predicate Differ(a: string, b: string, k: nat) {
    k <= |a| && k < |b| && a[..k] == b[..k] && (k == |a| || a[k] < b[k])
  }

  lemma {:induction false} LessIsTransitive(a: string, b: string, c: string)
    requires Less(a, b) && Less(b, c)
    ensures Less(a, c)
  {
    if a != "" && a[0] == b[0] == c[0] {
      LessIsTransitive(a[1..], b[1..], c[1..]);
    }
  }

  lemma {:induction false} LessIsTotal(a: string, b: string)
    ensures Less(a, b) || a == b || Less(b, a)
    ensures !(Less(a, b) && Less(b, a)) && !Less(a, a)
  {
    if a != "" { LessIsIrreflexive(a); }
    if a != "" && b != "" && a[0] == b[0] {
      LessIsTotal(a[1..], b[1..]);
      assert a == [a[0]] + a[1..] && b == [b[0]] + b[1..];
    }
  }

  lemma {:induction false} LessIsIrreflexive(a: string)
    ensures !Less(a, a)
  {
    if a != "" { LessIsIrreflexive(a[1..]); }
  }

  predicate Sorted(members: seq<Member>) {
    forall i, j :: 0 <= i < j < |members| ==> Less(members[i].name, members[j].name)
  }

  /** Where a key is, or where it would go. */
  function LowerBound(members: seq<Member>, name: string): (k: nat)
    ensures k <= |members|
    ensures forall i :: 0 <= i < k ==> Less(members[i].name, name)
    ensures k < |members| ==> !Less(members[k].name, name)
  {
    if members != [] && Less(members[0].name, name) then 1 + LowerBound(members[1..], name) else 0
  }

  predicate Has(members: seq<Member>, name: string) {
    var k := LowerBound(members, name);
    k < |members| && members[k].name == name
  }

  /** The value under a key; a new key holds null. */
  function Lookup(members: seq<Member>, name: string): Value {
    if Has(members, name) then members[LowerBound(members, name)].value else Null
  }

  function Store(members: seq<Member>, name: CString, value: Value): seq<Member> {
    var k := LowerBound(members, name);
    if Has(members, name) then members[k := Member(name, value)]
    else members[..k] + [Member(name, value)] + members[k..]
  }

  /** Storing keeps the order, replaces one value and leaves the others alone. */
  lemma StoreFacts(members: seq<Member>, name: CString, value: Value)
    requires Sorted(members)
    ensures Sorted(Store(members, name, value))
    ensures forall m ::
      m in Store(members, name, value) <==> (m == Member(name, value) || (m in members && m.name != name))
  {
    AroundLowerBound(members, name);
    if Has(members, name) {
      ReplaceFacts(members, name, value, LowerBound(members, name));
    } else {
      InsertFacts(members, name, value, LowerBound(members, name));
    }
  }

  lemma AroundLowerBound(members: seq<Member>, name: string)
    requires Sorted(members)
    ensures
      var k := LowerBound(members, name);
      && (forall i :: 0 <= i < k ==> members[i].name != name)
      && (forall i :: k < i < |members| ==> Less(name, members[i].name) && members[i].name != name)
      && (k < |members| && members[k].name != name ==> Less(name, members[k].name))
  {
    var k := LowerBound(members, name);
    LessIsIrreflexive(name);
    if k < |members| {
      LessIsTotal(members[k].name, name);
      forall i | k < i < |members| ensures Less(name, members[i].name) {
        if members[k].name != name { LessIsTransitive(name, members[k].name, members[i].name); }
      }
    }
  }

  lemma ReplaceFacts(members: seq<Member>, name: CString, value: Value, k: nat)
    requires Sorted(members) && k < |members| && members[k].name == name
    requires forall i :: 0 <= i < |members| && i != k ==> members[i].name != name
    ensures
      var after := members[k := Member(name, value)];
      Sorted(after) && forall m :: m in after <==> (m == Member(name, value) || (m in members && m.name != name))
  {
    hide Less;
    var after := members[k := Member(name, value)];
    assert forall i :: 0 <= i < |members| ==> after[i] == if i == k then Member(name, value) else members[i];
    assert after[k] == Member(name, value);
  }

  lemma InsertFacts(members: seq<Member>, name: CString, value: Value, k: nat)
    requires Sorted(members) && k <= |members|
    requires forall i :: 0 <= i < k ==> Less(members[i].name, name) && members[i].name != name
    requires forall i :: k <= i < |members| ==> Less(name, members[i].name) && members[i].name != name
    ensures
      var after := members[..k] + [Member(name, value)] + members[k..];
      Sorted(after) && forall m :: m in after <==> (m == Member(name, value) || (m in members && m.name != name))
  {
    hide Less;
    var after := members[..k] + [Member(name, value)] + members[k..];
    assert forall i :: 0 <= i < k ==> after[i] == members[i];
    assert after[k] == Member(name, value);
    assert forall i :: k <= i < |members| ==> after[i + 1] == members[i];
    assert forall i :: k < i < |after| ==> after[i] == members[i - 1];
  }

  /** A key beyond all others goes to the end. */
  lemma StoreLast(members: seq<Member>, name: CString, value: Value)
    requires forall m <- members :: Less(m.name, name)
    ensures Lookup(members, name) == Null
    ensures Store(members, name, value) == members + [Member(name, value)]
  {
    assert forall i :: 0 <= i < |members| ==> Less(members[i].name, name);
  }

  // ---------------------------------------------------------------- kinds of values

  /** Objects inside the value have their keys in order, as a map keeps them. */
  ghost predicate Ordered(v: Value)
    decreases v
  {
    match v
    case Arr(items) => forall x <- items :: Ordered(x)
    case Obj(members) => Sorted(members) && forall m <- members :: Ordered(m.value)
    case _ => true
  }

  ghost predicate RealFree(v: Value)
    decreases v
  {
    match v
    case Real(_) => false
    case Arr(items) => forall x <- items :: RealFree(x)
    case Obj(members) => forall m <- members :: RealFree(m.value)
    case _ => true
  }

  /** The reader's choice of tag: small or negative integers are signed. */
  function Retag(i: int): Value
    requires MIN_LARGEST_INT <= i <= MAX_LARGEST_UINT
  {
    if i <= MAX_INT then Int(i) else UInt(i)
  }

  function Normal(v: Value): Value
    decreases v
  {
    match v
    case Int(i) => Retag(i)
    case UInt(u) => Retag(u)
    case Arr(items) => Arr(seq(|items|, k requires 0 <= k < |items| => Normal(items[k])))
    case Obj(members) =>
      Obj(seq(|members|, k requires 0 <= k < |members| => Member(members[k].name, Normal(members[k].value))))
    case _ => v
  }

  // ---------------------------------------------------------------- tokens

  const COMMA := Lexeme(ArraySeparator, ",")
  const COLON := Lexeme(MemberSeparator, ":")

  function Toks(v: Value): (r: seq<Lexeme>)
    ensures r != []
    decreases v, 1, 0
  {
    match v
    case Null => [Lexeme(NullToken, "null")]
    case Bool(b) => [if b then Lexeme(TrueToken, "true") else Lexeme(FalseToken, "false")]
    case Int(i) => [Lexeme(NumberToken, Decimal(i))]
    case UInt(u) => [Lexeme(NumberToken, Decimal(u))]
    case Real(text) => [Lexeme(NumberToken, text)]
    case Str(s) => [Lexeme(StringToken, Quote(s))]
    case Arr(items) => [Lexeme(ArrayBegin, "[")] + ItemsFrom(v, 0) + [Lexeme(ArrayEnd, "]")]
    case Obj(members) => [Lexeme(ObjectBegin, "{")] + MembersFrom(v, 0) + [Lexeme(ObjectEnd, "}")]
  }

  /** The elements from number `k` on, with commas between them. */
  function ItemsFrom(v: Value, k: nat): seq<Lexeme>
    requires v.Arr? && k <= |v.items|
    decreases v, 0, |v.items| - k
  {
    if k == |v.items| then []
    else if k + 1 == |v.items| then Toks(v.items[k])
    else Toks(v.items[k]) + [COMMA] + ItemsFrom(v, k + 1)
  }

  function MembersFrom(v: Value, k: nat): seq<Lexeme>
    requires v.Obj? && k <= |v.members|
    decreases v, 0, |v.members| - k
  {
    if k == |v.members| then []
    else if k + 1 == |v.members| then MemberToks(v.members[k])
    else MemberToks(v.members[k]) + [COMMA] + MembersFrom(v, k + 1)
  }

  function MemberToks(m: Member): seq<Lexeme>
    decreases m, 2, 0
  {
    [Lexeme(StringToken, Quote(m.name)), COLON] + Toks(m.value)
  }

  // ---------------------------------------------------------------- prefixes

  /** The elements before number `k`, with commas between them. */
  function ItemsUpTo(v: Value, k: nat): seq<Lexeme>
    requires v.Arr? && k <= |v.items|
  {
    if k == 0 then [] else ItemsUpTo(v, k - 1) + (if k > 1 then [COMMA] else []) + Toks(v.items[k - 1])
  }

  function MembersUpTo(v: Value, k: nat): seq<Lexeme>
    requires v.Obj? && k <= |v.members|
  {
    if k == 0 then [] else MembersUpTo(v, k - 1) + (if k > 1 then [COMMA] else []) + MemberToks(v.members[k - 1])
  }

  lemma {:induction false} ItemsSplit(v: Value, k: nat)
    requires v.Arr? && k <= |v.items|
    ensures ItemsFrom(v, 0)
      == ItemsUpTo(v, k) + (if 0 < k < |v.items| then [COMMA] else []) + ItemsFrom(v, k)
  {
    hide Toks;
    if k > 0 { ItemsSplit(v, k - 1); }
  }

  lemma {:induction false} MembersSplit(v: Value, k: nat)
    requires v.Obj? && k <= |v.members|
    ensures MembersFrom(v, 0)
      == MembersUpTo(v, k) + (if 0 < k < |v.members| then [COMMA] else []) + MembersFrom(v, k)
  {
    hide Toks, MemberToks;
    if k > 0 { MembersSplit(v, k - 1); }
  }

  lemma AllItems(v: Value)
    requires v.Arr?
    ensures ItemsUpTo(v, |v.items|) == ItemsFrom(v, 0)
  {
    ItemsSplit(v, |v.items|);
  }

  lemma AllMembers(v: Value)
    requires v.Obj?
    ensures MembersUpTo(v, |v.members|) == MembersFrom(v, 0)
  {
    MembersSplit(v, |v.members|);
  }
}
