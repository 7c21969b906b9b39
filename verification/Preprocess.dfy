/** What it means for a collected node to be outdated, apart from any program. */
module Outdated {
  import opened Lists
  import opened Digraph
  import opened DepthFirst

  /** Facts about a target that do not change during preprocessing; `time` is zero for a phony
      target and for a missing file. */
  datatype Facts = Facts(phony: bool, recipe: bool, present: bool, time: int)

  /** Outdated on its own account: phony, or older than a parent and equipped with a recipe. */
  ghost predicate Forced<N>(ins: map<N, set<N>>, facts: map<N, Facts>, n: N)
    requires n in ins && n in facts && ins[n] <= facts.Keys
  {
    facts[n].phony || (facts[n].recipe && exists u | u in ins[n] :: facts[u].time > facts[n].time)
  }

  ghost predicate Known<N>(ins: map<N, set<N>>, facts: map<N, Facts>, list: seq<N>) {
    ins.Keys == facts.Keys && WellFormed(ins) && forall n | n in list :: n in ins
  }

  /** The outdated nodes of a list. */
  ghost function Stale<N>(ins: map<N, set<N>>, facts: map<N, Facts>, list: seq<N>): set<N>
    requires Known(ins, facts, list)
  {
    if list == [] then {}
    else
      var s, n := Stale(ins, facts, list[..|list| - 1]), list[|list| - 1];
      if Forced(ins, facts, n) || ins[n] * s != {} then s + {n} else s
  }

  /** `exit(1)`: a normal target without a recipe whose file is missing or whose parent is outdated. */
  ghost predicate Doomed<N>(ins: map<N, set<N>>, facts: map<N, Facts>, stale: set<N>, n: N)
    requires n in ins && n in facts
  {
    !facts[n].phony && !facts[n].recipe && (!facts[n].present || ins[n] * stale != {})
  }

  /** `t` contains every collected node that is forced or has an outdated parent. */
  ghost predicate Saturated<N>(ins: map<N, set<N>>, facts: map<N, Facts>, list: seq<N>, t: set<N>)
    requires Known(ins, facts, list)
  {
    forall n | n in list && (Forced(ins, facts, n) || ins[n] * t != {}) :: n in t
  }

  lemma {:induction false} StaleIsListed<N>(ins: map<N, set<N>>, facts: map<N, Facts>, list: seq<N>)
    requires Known(ins, facts, list)
    ensures Stale(ins, facts, list) <= Elems(list)
  {
    if list != [] { StaleIsListed(ins, facts, list[..|list| - 1]); }
  }

  /** Later nodes of a parents-first list are no parents of earlier ones. */
  lemma FrontIsPostOrder<N>(ins: map<N, set<N>>, list: seq<N>)
    requires PostOrder(ins, {}, list) && list != []
    ensures PostOrder(ins, {}, list[..|list| - 1])
    ensures forall n | n in list :: list[|list| - 1] !in ins[n]
    ensures forall n :: n in list <==> n in list[..|list| - 1] || n == list[|list| - 1]
    ensures ins[list[|list| - 1]] <= Elems(list[..|list| - 1])
  {
    var front, last := list[..|list| - 1], list[|list| - 1];
    assert list == front + [last];
    LastIsNoParent(ins, list);
    forall i | 0 <= i < |front| ensures ins[front[i]] <= {} + Elems(front[..i]) {
      assert front[i] == list[i] && front[..i] == list[..i];
    }
    assert ins[list[|list| - 1]] <= {} + Elems(list[..|list| - 1]);
  }

  lemma LastIsNoParent<N>(ins: map<N, set<N>>, list: seq<N>)
    requires PostOrder(ins, {}, list) && list != []
    ensures forall n | n in list :: list[|list| - 1] !in ins[n]
  {
    forall n | n in list ensures list[|list| - 1] !in ins[n] {
      var i :| 0 <= i < |list| && list[i] == n;
      assert ins[list[i]] <= {} + Elems(list[..i]);
      assert list[|list| - 1] !in list[..i];
    }
  }

  /** A collected node is outdated exactly when it is forced or has an outdated parent. */
  lemma {:induction false} StaleIsFixpoint<N>(ins: map<N, set<N>>, facts: map<N, Facts>, list: seq<N>, n: N)
    requires Known(ins, facts, list) && PostOrder(ins, {}, list) && n in list
    ensures n in Stale(ins, facts, list) <==> Forced(ins, facts, n) || ins[n] * Stale(ins, facts, list) != {}
  {
    var front, last := list[..|list| - 1], list[|list| - 1];
    FrontIsPostOrder(ins, list);
    StaleIsListed(ins, facts, front);
    hide Forced, PostOrder;
    var s, t := Stale(ins, facts, front), Stale(ins, facts, list);
    assert ins[n] * t == ins[n] * s;
    if n == last {
      assert n !in front by { assert list == front + [last]; assert ins[last] <= Elems(front); LastOnce(ins, list); }
    } else {
      StaleIsFixpoint(ins, facts, front, n);
    }
  }

  lemma LastOnce<N>(ins: map<N, set<N>>, list: seq<N>)
    requires PostOrder(ins, {}, list) && list != []
    ensures list[|list| - 1] !in list[..|list| - 1]
  {}

  /** The outdated set is the least saturated one. */
  lemma {:induction false} StaleIsLeast<N>(ins: map<N, set<N>>, facts: map<N, Facts>, list: seq<N>, t: set<N>)
    requires Known(ins, facts, list) && PostOrder(ins, {}, list)
    ensures Saturated(ins, facts, list, Stale(ins, facts, list))
    ensures Saturated(ins, facts, list, t) ==> Stale(ins, facts, list) <= t
  {
    forall n | n in list && (Forced(ins, facts, n) || ins[n] * Stale(ins, facts, list) != {})
      ensures n in Stale(ins, facts, list)
    {
      StaleIsFixpoint(ins, facts, list, n);
    }
    if list != [] && Saturated(ins, facts, list, t) {
      var front, last := list[..|list| - 1], list[|list| - 1];
      FrontIsPostOrder(ins, list);
      StaleIsLeast(ins, facts, front, t);
      assert last in list;
    }
  }
}

/** Splitting a list by colour. */
module Sieve {
  import opened Colours
  import opened Lists

  /** The elements of a given colour, in their order. */
  ghost function Keep<N>(list: seq<N>, colour: map<N, Colour>, c: Colour): seq<N> {
    if list == [] then []
    else
      var n := list[|list| - 1];
      Keep(list[..|list| - 1], colour, c) + if n in colour && colour[n] == c then [n] else []
  }

  /** GREY nodes in reverse, then BLACK nodes in their order. */
  ghost function Sifted<N>(list: seq<N>, colour: map<N, Colour>): seq<N> {
    Reversed(Keep(list, colour, Grey)) + Keep(list, colour, Black)
  }

  lemma {:induction false} KeepFacts<N>(list: seq<N>, colour: map<N, Colour>, c: Colour)
    ensures forall x :: x in Keep(list, colour, c) <==> x in list && x in colour && colour[x] == c
    ensures NoDup(list) ==> NoDup(Keep(list, colour, c))
  {
    if list != [] {
      var front := list[..|list| - 1];
      KeepFacts(front, colour, c);
      assert list == front + [list[|list| - 1]];
      assert NoDup(list) ==> list[|list| - 1] !in front;
    }
  }

  lemma BeforeLonger<N>(list: seq<N>, x: N, last: N)
    requires x in list
    ensures Before(list + [last], x, last)
  {
    var i :| 0 <= i < |list| && list[i] == x;
    assert (list + [last])[i] == x && (list + [last])[|list|] == last;
  }

  lemma BeforePrefix<N>(list: seq<N>, x: N, y: N, last: N)
    requires Before(list, x, y)
    ensures Before(list + [last], x, y)
  {
    var i, j :| 0 <= i < j < |list| && list[i] == x && list[j] == y;
    assert (list + [last])[i] == x && (list + [last])[j] == y;
  }

  lemma {:induction false} KeptAt<N>(list: seq<N>, colour: map<N, Colour>, c: Colour, i: nat)
    requires i < |Keep(list, colour, c)|
    ensures Keep(list, colour, c)[i] in list
  {
    var front := list[..|list| - 1];
    if i < |Keep(front, colour, c)| { KeptAt(front, colour, c, i); }
  }

  /** Keeping the nodes of one colour keeps their order. */
  lemma {:induction false} KeepOrder<N>(list: seq<N>, colour: map<N, Colour>, c: Colour, i: nat, j: nat)
    requires i < j < |Keep(list, colour, c)|
    ensures Before(list, Keep(list, colour, c)[i], Keep(list, colour, c)[j])
  {
    var front, last := list[..|list| - 1], list[|list| - 1];
    assert list == front + [last];
    var kept := Keep(front, colour, c);
    if j < |kept| {
      KeepOrder(front, colour, c, i, j);
      BeforePrefix(front, kept[i], kept[j], last);
    } else {
      KeptAt(front, colour, c, i);
      BeforeLonger(front, kept[i], last);
    }
  }

  /** The BLACK nodes of a sifted list stand in their original order. */
  lemma SiftedOrder<N>(list: seq<N>, colour: map<N, Colour>)
    ensures BlacksFollow(list, Sifted(list, colour), colour)
  {
    var sifted, greys, blacks := Sifted(list, colour), Reversed(Keep(list, colour, Grey)), Keep(list, colour, Black);
    KeepFacts(list, colour, Grey);
    ReversedFacts(Keep(list, colour, Grey));
    assert forall i | 0 <= i < |greys| :: sifted[i] == greys[i] && greys[i] in greys;
    forall i, j | 0 <= i < j < |sifted| && Tinted(colour, sifted[i], Black) && Tinted(colour, sifted[j], Black)
      ensures Before(list, sifted[i], sifted[j])
    {
      KeepOrder(list, colour, Black, i - |greys|, j - |greys|);
    }
  }

  lemma {:induction false} ReversedAt<N>(s: seq<N>, k: nat)
    requires k < |s|
    ensures |Reversed(s)| == |s| && Reversed(s)[k] == s[|s| - 1 - k]
  {
    if |s| > 1 { ReversedAt(s[..|s| - 1], if k > 0 then k - 1 else 0); }
  }

  /** The GREY nodes of a sifted list stand in the opposite of their original order. */
  lemma GreysTurnRound<N>(list: seq<N>, colour: map<N, Colour>)
    ensures GreysReverse(list, Sifted(list, colour), colour)
  {
    var sifted, kept := Sifted(list, colour), Keep(list, colour, Grey);
    var greys, blacks := Reversed(kept), Keep(list, colour, Black);
    KeepFacts(list, colour, Black);
    assert forall i | |greys| <= i < |sifted| :: sifted[i] == blacks[i - |greys|] && sifted[i] in blacks;
    forall i, j | 0 <= i < j < |sifted| && Tinted(colour, sifted[i], Grey) && Tinted(colour, sifted[j], Grey)
      ensures Before(list, sifted[j], sifted[i])
    {
      assert j < |greys|;
      assert kept != [] by { ReversedFacts(kept); }
      ReversedAt(kept, 0);
      ReversedAt(kept, i);
      ReversedAt(kept, j);
      KeepOrder(list, colour, Grey, |kept| - 1 - j, |kept| - 1 - i);
    }
  }

  ghost predicate GreysReverse<N>(list: seq<N>, sifted: seq<N>, colour: map<N, Colour>) {
    forall i, j | 0 <= i < j < |sifted| && Tinted(colour, sifted[i], Grey) && Tinted(colour, sifted[j], Grey) ::
      Before(list, sifted[j], sifted[i])
  }

  ghost predicate Tinted<N>(colour: map<N, Colour>, n: N, c: Colour) {
    n in colour && colour[n] == c
  }

  ghost predicate BlacksFollow<N>(list: seq<N>, sifted: seq<N>, colour: map<N, Colour>) {
    forall i, j | 0 <= i < j < |sifted| && Tinted(colour, sifted[i], Black) && Tinted(colour, sifted[j], Black) ::
      Before(list, sifted[i], sifted[j])
  }

  /** Sifting keeps each outdated node once, GREY ones first. */
  lemma SiftedFacts<N>(list: seq<N>, colour: map<N, Colour>)
    requires NoDup(list) && forall x | x in list :: x in colour
    ensures NoDup(Sifted(list, colour)) && GreysFirst(colour, Sifted(list, colour))
    ensures forall x :: x in Sifted(list, colour) <==> x in list && colour[x] != White
  {
    KeepFacts(list, colour, Grey);
    KeepFacts(list, colour, Black);
    ReversedFacts(Keep(list, colour, Grey));
    hide Reversed, Keep;
    var g, b := Reversed(Keep(list, colour, Grey)), Keep(list, colour, Black);
    var s := g + b;
    assert forall i | 0 <= i < |s| :: if i < |g| then s[i] == g[i] && s[i] in g else s[i] == b[i - |g|] && s[i] in b;
    assert NoDup(s);
    assert GreysFirst(colour, s);
  }

  lemma ReversedPush<N>(s: seq<N>, x: N)
    ensures Reversed(s + [x]) == [x] + Reversed(s)
  {
    assert (s + [x])[..|s|] == s;
  }

  /** What one round of the second loop does to the part already sifted. */
  lemma SiftNext<N>(list: seq<N>, colour: map<N, Colour>, k: nat)
    requires k < |list| && list[k] in colour
    ensures var a, b := Sifted(list[..k], colour), Sifted(list[..k + 1], colour);
            b == match colour[list[k]] case White => a case Grey => [list[k]] + a case Black => a + [list[k]]
  {
    hide Keep, Reversed;
    KeepNext(list, colour, Grey, k);
    KeepNext(list, colour, Black, k);
    ReversedPush(Keep(list[..k], colour, Grey), list[k]);
    var g, b := Reversed(Keep(list[..k], colour, Grey)), Keep(list[..k], colour, Black);
    Regroup([list[k]], g, b);
    Regroup(g, b, [list[k]]);
  }

  lemma KeepNext<N>(list: seq<N>, colour: map<N, Colour>, c: Colour, k: nat)
    requires k < |list| && list[k] in colour
    ensures Keep(list[..k + 1], colour, c) ==
            if colour[list[k]] == c then Keep(list[..k], colour, c) + [list[k]] else Keep(list[..k], colour, c)
  {
    assert list[..k + 1][..k] == list[..k];
  }

  /** The edits of one round, on a list whose first part `a` has been sifted. */
  lemma RoundEdits<N>(a: seq<N>, rest: seq<N>)
    requires rest != []
    ensures var t, i, p := a + rest, |a|, rest[0];
            && t[i] == p
            && t[..i] + t[i + 1..] == a + rest[1..]
            && ([p] + t)[..i + 1] + ([p] + t)[i + 2..] == ([p] + a) + rest[1..]
            && t == (a + [p]) + rest[1..]
  {}
}

/** The preprocessing pass of `schedule`. */
module Preprocess {
  import opened Colours
  import opened Lists
  import opened DepthFirst
  import opened Dag
  import opened Outdated
  import opened Sieve

  ghost function NonWhite(s: set<DagNode>): set<DagNode>
    reads s`status
  {
    set u | u in s && u.status != White
  }

  method CountNonWhite(s: set<DagNode>) returns (n: nat)
    ensures n == |NonWhite(s)|
  {
    var rest := s;
    n := 0;
    while rest != {}
      invariant rest <= s && n == |NonWhite(s - rest)|
    {
      var u :| u in rest;
      assert s - (rest - {u}) == s - rest + {u};
      assert NonWhite(s - rest + {u}) == NonWhite(s - rest) + if u.status != White then {u} else {};
      rest := rest - {u};
      if u.status != White { n := n + 1; }
    }
    assert s - rest == s;
  }

  method AnyNewer(s: set<DagNode>, t: int) returns (newer: bool)
    ensures newer <==> exists u | u in s :: u.lmt > t
  {
    var rest := s;
    while rest != {}
      invariant rest <= s && forall u | u in s - rest :: u.lmt <= t
    {
      var u :| u in rest;
      if u.lmt > t { return true; }
      rest := rest - {u};
    }
    newer := false;
  }

  ghost function FactsOf(n: DagNode, mtime: map<string, int>): Facts
    reads n`kind, n`recipe
  {
    Facts(n.kind == Phony, n.recipe != "", n.key in mtime,
          if n.kind != Phony && n.key in mtime then mtime[n.key] else 0)
  }

  ghost function InsOf(list: seq<DagNode>): map<DagNode, set<DagNode>>
    reads Elems(list)`inList
  {
    map n | n in Elems(list) :: n.inList
  }

  ghost function FactsIn(list: seq<DagNode>, mtime: map<string, int>): map<DagNode, Facts>
    reads Elems(list)`kind, Elems(list)`recipe
  {
    map n | n in Elems(list) :: FactsOf(n, mtime)
  }

  /** The colour, counter and time stamp that preprocessing gives a node. */
  ghost predicate Settled(ins: map<DagNode, set<DagNode>>, facts: map<DagNode, Facts>, stale: set<DagNode>, n: DagNode)
    requires n in ins && n in facts
    reads n`status, n`waitBlack, n`lmt
  {
    && n.lmt == facts[n].time
    && n.status == (if n !in stale then White else if ins[n] * stale == {} then Grey else Black)
    && (facts[n].phony || ins[n] != {} ==> n.waitBlack == |ins[n] * stale|)
  }

  /** One round of the first loop: `late` are the parents that are not up to date. */
  method Settle(p: DagNode, mtime: map<string, int>, ghost late: set<DagNode>) returns (ok: bool)
    requires p !in p.inList && late == NonWhite(p.inList)
    modifies p`status, p`waitBlack, p`lmt
    ensures ok <==> p.kind == Phony || p.recipe != "" || (p.key in mtime && late == {})
    ensures ok ==> p.lmt == if p.kind != Phony && p.key in mtime then mtime[p.key] else 0
    ensures ok ==> p.status == if late != {} then Black
                               else if p.kind == Phony then Grey
                               else if p.recipe != "" && (exists u | u in p.inList :: u.lmt > p.lmt) then Grey
                               else White
    ensures ok && (p.kind == Phony || p.inList != {}) ==> p.waitBlack == |late|
  {
    if p.kind == Phony {
      p.lmt := 0;
      p.waitBlack := CountNonWhite(p.inList);
      p.status := if p.waitBlack != 0 then Black else Grey;
      return true;
    }
    p.lmt := if p.key in mtime then mtime[p.key] else 0;
    if p.key !in mtime && p.recipe == "" { return false; }
    if p.inList == {} {
      p.status := White;
      return true;
    }
    p.waitBlack := CountNonWhite(p.inList);
    if p.waitBlack != 0 {
      if p.recipe == "" { return false; }
      p.status := Black;
      return true;
    }
    if p.recipe == "" {
      p.status := White;
      return true;
    }
    var grey := AnyNewer(p.inList, p.lmt);
    p.status := if grey then Grey else White;
    ok := true;
  }

  lemma KnownList(list: seq<DagNode>, mtime: map<string, int>)
    requires PostOrder<DagNode>(InsOf(list), {}, list)
    ensures Known<DagNode>(InsOf(list), FactsIn(list, mtime), list)
  {
    forall n | n in InsOf(list) ensures InsOf(list)[n] <= InsOf(list).Keys {
      var i :| 0 <= i < |list| && list[i] == n;
      NodeAt(list, mtime, i);
    }
  }

  lemma NodeAt(list: seq<DagNode>, mtime: map<string, int>, i: nat)
    requires PostOrder<DagNode>(InsOf(list), {}, list) && i < |list|
    ensures var ins, facts, p := InsOf(list), FactsIn(list, mtime), list[i];
            && p in ins && p in facts && ins[p] == p.inList && facts[p] == FactsOf(p, mtime)
            && p.inList <= Elems(list[..i]) && p.inList <= facts.Keys && p !in list[..i] && p in Elems(list)
    ensures forall j | 0 <= j < i :: list[j] != list[i]
  {
    assert InsOf(list)[list[i]] <= {} + Elems(list[..i]);
    hide PostOrder, FactsOf;
  }

  lemma SettledBy(ins: map<DagNode, set<DagNode>>, facts: map<DagNode, Facts>, stale: set<DagNode>, p: DagNode)
    requires p in ins && p in facts && ins[p] <= facts.Keys
    requires p in stale <==> Forced<DagNode>(ins, facts, p) || ins[p] * stale != {}
    requires forall u | u in ins[p] :: u.lmt == facts[u].time
    requires p.lmt == facts[p].time && (facts[p].phony || ins[p] != {} ==> p.waitBlack == |ins[p] * stale|)
    requires p.status == (if ins[p] * stale != {} then Black
                          else if facts[p].phony || (facts[p].recipe && exists u | u in ins[p] :: u.lmt > facts[p].time) then Grey
                          else White)
    ensures Settled(ins, facts, stale, p)
  {
    assert (exists u | u in ins[p] :: u.lmt > facts[p].time) <==> exists u | u in ins[p] :: facts[u].time > facts[p].time;
  }

  /** `list` holds parents before dependents; `ins` and `facts` describe its nodes as they stand. */
  ghost predicate Describes(list: seq<DagNode>, mtime: map<string, int>, ins: map<DagNode, set<DagNode>>, facts: map<DagNode, Facts>)
    reads Elems(list)`kind, Elems(list)`recipe, Elems(list)`inList
  {
    && ins == InsOf(list) && facts == FactsIn(list, mtime)
    && PostOrder<DagNode>(ins, {}, list) && Known<DagNode>(ins, facts, list)
  }

  ghost predicate AllSettled(ins: map<DagNode, set<DagNode>>, facts: map<DagNode, Facts>, stale: set<DagNode>, list: seq<DagNode>)
    reads Elems(list)`status, Elems(list)`waitBlack, Elems(list)`lmt
  {
    forall n | n in list :: n in ins && n in facts && Settled(ins, facts, stale, n) && !Doomed<DagNode>(ins, facts, stale, n)
  }

  /** One round of the first loop, in terms of the outdated set; `front` was settled before. */
  method SettleIn(front: seq<DagNode>, p: DagNode, mtime: map<string, int>, ghost ins: map<DagNode, set<DagNode>>,
                  ghost facts: map<DagNode, Facts>, ghost stale: set<DagNode>) returns (ok: bool)
    requires p in ins && p in facts && ins[p] == p.inList && facts[p] == FactsOf(p, mtime)
    requires p.inList <= facts.Keys && p !in p.inList && p !in front
    requires p in stale <==> Forced<DagNode>(ins, facts, p) || ins[p] * stale != {}
    requires NonWhite(p.inList) == p.inList * stale
    requires forall u | u in p.inList :: u.lmt == facts[u].time
    requires AllSettled(ins, facts, stale, front)
    modifies p`status, p`waitBlack, p`lmt
    ensures ok <==> !Doomed<DagNode>(ins, facts, stale, p)
    ensures ok ==> AllSettled(ins, facts, stale, front + [p])
  {
    hide Forced, NonWhite;
    ok := Settle(p, mtime, ins[p] * stale);
    if ok { SettledBy(ins, facts, stale, p); }
    hide Settled, Doomed;
  }

  lemma TakeAll<T>(s: seq<T>)
    ensures s[..|s|] == s
  {}

  lemma TakeNext<T>(s: seq<T>, i: nat)
    requires i < |s|
    ensures s[..i + 1] == s[..i] + [s[i]] && s[i] in s
  {}

  /** One round of the first loop, after the first `i` nodes have been settled. */
  method SettleNext(list: seq<DagNode>, i: nat, mtime: map<string, int>, ghost ins: map<DagNode, set<DagNode>>,
                    ghost facts: map<DagNode, Facts>, ghost stale: set<DagNode>) returns (ok: bool)
    requires Describes(list, mtime, ins, facts) && i < |list|
    requires stale == Stale<DagNode>(ins, facts, list) && AllSettled(ins, facts, stale, list[..i])
    modifies Elems(list)`status, Elems(list)`waitBlack, Elems(list)`lmt
    ensures Describes(list, mtime, ins, facts)
    ensures ok ==> AllSettled(ins, facts, stale, list[..i + 1])
    ensures !ok ==> list[i] in ins && list[i] in facts && Doomed<DagNode>(ins, facts, stale, list[i])
  {
    NodeAt(list, mtime, i);
    TakeNext(list, i);
    StaleIsFixpoint<DagNode>(ins, facts, list, list[i]);
    LateParents(ins, facts, stale, list[..i], list[i].inList);
    hide PostOrder, Stale, Forced, NonWhite, Doomed, Known, AllSettled, FactsOf;
    ok := SettleIn(list[..i], list[i], mtime, ins, facts, stale);
  }

  /** The first loop: it fails exactly on a doomed target, and otherwise turns the outdated nodes
      GREY or BLACK and the others WHITE. */
  method Classify(list: seq<DagNode>, mtime: map<string, int>, ghost ins: map<DagNode, set<DagNode>>,
                  ghost facts: map<DagNode, Facts>) returns (ok: bool)
    requires Describes(list, mtime, ins, facts)
    modifies Elems(list)`status, Elems(list)`waitBlack, Elems(list)`lmt
    ensures var stale := Stale<DagNode>(ins, facts, list);
            if ok then AllSettled(ins, facts, stale, list)
            else exists n | n in list :: Doomed<DagNode>(ins, facts, stale, n)
  {
    ghost var stale: set<DagNode> := Stale<DagNode>(ins, facts, list);
    assert AllSettled(ins, facts, stale, list[..0]);
    TakeAll(list);
    hide Stale, AllSettled, Doomed, Known, PostOrder, Describes, Elems;
    for i := 0 to |list|
      invariant Describes(list, mtime, ins, facts) && AllSettled(ins, facts, stale, list[..i])
    {
      var settled := SettleNext(list, i, mtime, ins, facts, stale);
      if !settled { return false; }
    }
    ok := true;
  }

  lemma LateParents(ins: map<DagNode, set<DagNode>>, facts: map<DagNode, Facts>, stale: set<DagNode>,
                    front: seq<DagNode>, parents: set<DagNode>)
    requires AllSettled(ins, facts, stale, front) && parents <= Elems(front)
    ensures NonWhite(parents) == parents * stale
    ensures forall u | u in parents :: u in facts && u.lmt == facts[u].time
  {}

  ghost function Tints(list: seq<DagNode>): map<DagNode, Colour>
    reads Elems(list)`status
  {
    map n | n in Elems(list) :: n.status
  }

  lemma DropNext(list: seq<DagNode>, k: nat)
    requires k <= |list|
    ensures k < |list| ==> list[k..] != [] && list[k..][0] == list[k] && list[k..][1..] == list[k + 1..]
    ensures k == |list| ==> list[k..] == []
  {}

  /** The second loop: erase WHITE nodes and bring GREY nodes to the front. */
  method Rearrange(list: seq<DagNode>) returns (tasks: seq<DagNode>)
    ensures tasks == Sifted<DagNode>(list, Tints(list))
  {
    ghost var k, colour := 0, Tints(list);
    tasks := list;
    var i := 0;
    assert list[..0] == [];
    while i < |tasks|
      invariant k <= |list| && i == |Sifted<DagNode>(list[..k], colour)|
      invariant tasks == Sifted<DagNode>(list[..k], colour) + list[k..]
    {
      hide Sifted;
      var p := tasks[i];
      ghost var a: seq<DagNode> := Sifted<DagNode>(list[..k], colour);
      DropNext(list, k);
      RoundEdits<DagNode>(a, list[k..]);
      SiftNext<DagNode>(list, colour, k);
      if p.status == White {
        tasks := tasks[..i] + tasks[i + 1..];
      } else if p.status == Grey {
        tasks := [p] + tasks;
        tasks := tasks[..i + 1] + tasks[i + 2..];
        i := i + 1;
      } else {
        i := i + 1;
      }
      k := k + 1;
    }
    TakeAll(list);
  }

  /** `_schedule_preprocessing`, with the missing-recipe exits as a failure.  It succeeds exactly
      when no target is doomed; then colours, counters and time stamps are settled and the list
      holds the GREY nodes in reverse, then the BLACK nodes in their order. */
  method SchedulePreprocessing(list: seq<DagNode>, mtime: map<string, int>) returns (ok: bool, tasks: seq<DagNode>)
    requires PostOrder<DagNode>(InsOf(list), {}, list)
    modifies Elems(list)`status, Elems(list)`waitBlack, Elems(list)`lmt
    ensures Known<DagNode>(old(InsOf(list)), old(FactsIn(list, mtime)), list)
    ensures var ins, facts := old(InsOf(list)), old(FactsIn(list, mtime));
            var stale := Stale<DagNode>(ins, facts, list);
            if ok then AllSettled(ins, facts, stale, list)
            else exists n | n in list :: Doomed<DagNode>(ins, facts, stale, n)
    ensures ok ==> tasks == Sifted<DagNode>(list, Tints(list))
  {
    KnownList(list, mtime);
    ghost var ins, facts := InsOf(list), FactsIn(list, mtime);
    hide PostOrder, Stale, Doomed, AllSettled, Sifted, InsOf, FactsIn, Known;
    tasks := list;
    ok := Classify(list, mtime, ins, facts);
    if ok { tasks := Rearrange(list); }
  }
}
