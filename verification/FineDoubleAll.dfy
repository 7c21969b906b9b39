/** A run in which every BLACK node is dispatched twice. */
module FineDoubleAll {
  import opened Colours
  import opened Lists
  import opened Scheduling
  import opened SchedulingInvariant
  import opened FineScheduling
  import opened FineInvariant
  import opened FineSafety
  import opened FineMatching
  import opened FineGreedy
  import opened FineProgress
  import opened FineStall
  import opened FineTwice

  /** The BLACK nodes of the list from place `i` on. */
  ghost function HeldFrom(p: Plan, i: nat): set<Key>
    requires i <= |p.list|
  {
    set u | u in p.list[i..] && u in p.colour && p.colour[u] == Black
  }

  lemma {:induction false} ElemsCard<T>(s: seq<T>)
    ensures |Elems(s)| <= |s|
  {
    if s != [] {
      ElemsCard(s[1..]);
      assert s == [s[0]] + s[1..];
      assert Elems(s) == {s[0]} + Elems(s[1..]);
    }
  }

  lemma HeldSmall(p: Plan, i: nat)
    requires i <= |p.list|
    ensures |HeldFrom(p, i)| <= |p.list|
  {
    ElemsCard(p.list[i..]);
    SubsetCard(HeldFrom(p, i), Elems(p.list[i..]));
  }

  lemma HeldNext(p: Plan, i: nat)
    requires i < |p.list| && NoDup(p.list)
    ensures var u := p.list[i];
            HeldFrom(p, i + 1) == if u in p.colour && p.colour[u] == Black then HeldFrom(p, i) - {u} else HeldFrom(p, i)
  {
    assert p.list[i..] == [p.list[i]] + p.list[i + 1..];
    assert p.list[i] !in p.list[i + 1..];
  }

  lemma HeldInList(p: Plan, i: nat)
    requires i <= |p.list|
    ensures forall u | u in HeldFrom(p, i) :: u in p.list && u in p.colour && p.colour[u] == Black
  {
    assert forall u | u in p.list[i..] :: u in p.list;
  }

  lemma FirstOfHeld(p: Plan, i: nat)
    requires Prepared(p) && i < |p.list| && p.list[i] in p.colour && p.colour[p.list[i]] == Black
    ensures FirstHeld(p, {}, HeldFrom(p, i), p.list[i])
  {
    var u := p.list[i];
    hide Prepared, Stale, UpTo;
    assert p.list[i..][0] == u;
    forall h | h in HeldFrom(p, i) ensures h in p.list && h in p.colour && p.colour[h] == Black && (h == u || Before(p.list, u, h)) {
      var j :| 0 <= j < |p.list[i..]| && p.list[i..][j] == h;
      assert p.list[i + j] == h;
    }
  }

  /** The BLACK nodes up to place `i` have been dispatched twice; each first dispatch is with its own worker. */
  ghost predicate Doubled(p: Plan, f: Fine, m: nat, i: nat) {
    && i <= |p.list| && |f.works| == m + |p.list|
    && (forall w | m + i <= w < |f.works| :: f.works[w].Free?)
    && forall j | 0 <= j < i && p.list[j] in p.colour && p.colour[p.list[j]] == Black ::
         Tok(p.list[j], false) in f.sent && Tok(p.list[j], true) in f.sent
  }

  lemma DoubledSkip(p: Plan, f: Fine, m: nat, i: nat)
    requires Doubled(p, f, m, i) && i < |p.list|
    ensures f.works[m + i].Free?
    ensures !(p.list[i] in p.colour && p.colour[p.list[i]] == Black) ==> Doubled(p, f, m, i + 1)
  {}

  lemma DoubledNext(p: Plan, f: Fine, g: Fine, m: nat, i: nat)
    requires Doubled(p, f, m, i) && i < |p.list| && NewExtra(m, f, g, p.list[i], m + i)
    ensures Doubled(p, g, m, i + 1)
  {}

  lemma {:induction false} DoubleAll(p: Plan, m: nat, i: nat, s: State, moves: seq<Move>) returns (t: State, more: seq<Move>)
    requires Prepared(p) && m == |p.list| + 1 && i <= |p.list|
    requires Inv(p, s) && Follow(p, m + |p.list|, moves).Reached? && Match(p, s, Follow(p, m + |p.list|, moves).fine)
    requires |s.jobs| == m && Kept(Avoid({}, HeldFrom(p, i)), s)
    requires Doubled(p, Follow(p, m + |p.list|, moves).fine, m, i)
    ensures Follow(p, m + |p.list|, more).Reached? && Match(p, t, Follow(p, m + |p.list|, more).fine)
    ensures Doubled(p, Follow(p, m + |p.list|, more).fine, m, |p.list|)
    decreases |p.list| - i
  {
    hide Prepared, Inv, Follow, Match, Kept, FirstHeld, HeldFrom, NewExtra;
    var n := m + |p.list|;
    if i == |p.list| {
      t, more := s, moves;
    } else {
      ListOnce(p);
      HeldNext(p, i);
      DoubledSkip(p, Follow(p, n, moves).fine, m, i);
      var u := p.list[i];
      if u in p.colour && p.colour[u] == Black {
        HeldSmall(p, i);
        FirstOfHeld(p, i);
        var r, next := DispatchTwice(p, n, s, moves, {}, HeldFrom(p, i), u, m + i);
        DoubledNext(p, Follow(p, n, moves).fine, Follow(p, n, next).fine, m, i);
        t, more := DoubleAll(p, m, i + 1, r, next);
      } else {
        t, more := DoubleAll(p, m, i + 1, s, moves);
      }
    }
  }

  lemma DoublesSent(p: Plan, f: Fine, m: nat, q: Key)
    requires Doubled(p, f, m, |p.list|) && q in p.list && q in p.colour && p.colour[q] == Black
    ensures Tok(q, true) in f.sent
  {
    var j :| 0 <= j < |p.list| && p.list[j] == q;
  }

  lemma MasterHere(p: Plan, s: State, f: Fine)
    requires Match(p, s, f)
    ensures !f.aborted && !f.master.Gone?
  {}

  lemma NoneDoubled(p: Plan, m: nat)
    ensures Doubled(p, Start(p, m + |p.list|), m, 0)
  {}

  /** A run that ends with every dispatch ended, every outdated node run, and every BLACK one run twice. */
  lemma DoubledRun(p: Plan) returns (n: nat, moves: seq<Move>)
    requires Prepared(p)
    ensures Follow(p, n, moves).Reached? && Over(Follow(p, n, moves).fine) && Follow(p, n, moves).fine.list == []
    ensures forall u | u in p.list :: Tok(u, false) in Follow(p, n, moves).fine.ended
    ensures forall u | u in p.list && u in p.colour && p.colour[u] == Black :: Tok(u, true) in Follow(p, n, moves).fine.ended
  {
    hide Prepared, Inv, Follow, Match, Kept, FineInv, Doubled, HeldFrom, Init, Start, Quiet;
    var m := |p.list| + 1;
    n := m + |p.list|;
    HeldInList(p, 0);
    BeginHeld(p, m, n, {}, HeldFrom(p, 0));
    NoneDoubled(p, m);
    var s, driven := DoubleAll(p, m, 0, Init(p, m), []);
    MasterHere(p, s, Follow(p, n, driven).fine);
    moves := CanRunAll(p, n, driven);
    AlwaysFine(p, n, moves);
    QuietMeansEnded(p, Follow(p, n, moves).fine);
    forall u | u in p.list && u in p.colour && p.colour[u] == Black ensures Tok(u, true) in Follow(p, n, moves).fine.ended {
      DoublesSent(p, Follow(p, n, driven).fine, m, u);
    }
  }

  /** Some run executes the recipe of every BLACK node twice: the bound of two is met by all of them at once. */
  lemma AllBlackTwice(p: Plan) returns (n: nat, moves: seq<Move>)
    requires Prepared(p)
    ensures Follow(p, n, moves).Reached? && Over(Follow(p, n, moves).fine)
    ensures forall u | u in p.list :: u in p.colour &&
              multiset(Follow(p, n, moves).fine.log)[Ended(u)] == if p.colour[u] == Black then 2 else 1
  {
    n, moves := DoubledRun(p);
    AlwaysFine(p, n, moves);
    ListedInOrder(p);
    var f := Follow(p, n, moves).fine;
    hide Prepared, Follow, Over;
    forall u | u in p.list ensures multiset(f.log)[Ended(u)] == if p.colour[u] == Black then 2 else 1 {
      EndedOften(p, f, u);
      if Tok(u, true) in f.ended { TokenSent(p, f, Tok(u, true)); SentAgainWasBlack(p, f, u); }
    }
  }

  lemma EndedOften(p: Plan, f: Fine, u: Key)
    requires FineInv(p, f)
    ensures multiset(f.log)[Ended(u)] == Tally(f.ended, u)
  {
    hide Counted, Places, Ordered, Passed, Shaded, Working, Carried, Waiting, Sendings;
  }
}
