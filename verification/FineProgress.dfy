/** No interleaving of moves works for ever, and none can get stuck: the master may look at the
    list again and again, but everything else is bounded, and every run can be brought to its end. */
module FineProgress {
  import opened Colours
  import opened Lists
  import opened Scheduling
  import opened SchedulingInvariant
  import opened SchedulingTheorems
  import opened FineScheduling
  import opened FineInvariant
  import opened FineSafety
  import opened FineDouble

  // ---------- bounded work ----------

  ghost function Firsts(keys: set<Key>, again: bool): set<Tok> {
    set k | k in keys :: Tok(k, again)
  }

  ghost function AllToks(p: Plan): set<Tok> {
    Firsts(p.out.Keys, false) + Firsts(p.out.Keys, true)
  }

  lemma {:induction false} FirstsCard(keys: set<Key>, again: bool)
    ensures |Firsts(keys, again)| == |keys|
  {
    if keys != {} {
      var k :| k in keys;
      FirstsCard(keys - {k}, again);
      assert Firsts(keys, again) == Firsts(keys - {k}, again) + {Tok(k, again)};
    }
  }

  ghost function Times(n: nat, m: nat): nat {
    n * m
  }

  ghost function Budget(p: Plan, f: Fine): nat {
    Times(Left(AllToks(p), f.sent), 3 * |p.out| + 4) + Load(p, f)
  }

  /** Every move but looking at the list and taking or giving back its lock. */
  predicate Productive(move: Move) {
    !move.Look? && !move.Enter? && !move.Leave? && !move.Crash?
  }

  function Productives(moves: seq<Move>): nat {
    if moves == [] then 0
    else Productives(moves[..|moves| - 1]) + if Productive(moves[|moves| - 1]) then 1 else 0
  }

  lemma SentKnown(p: Plan, f: Fine)
    requires FineInv(p, f) && HeadGoes(f) && Prepared(p)
    ensures Token(f.sent, f.list[0]) in AllToks(p) && Token(f.sent, f.list[0]) !in f.sent
  {
    hide Prepared, FineInv;
    HeadIsReady(p, f);
    TokenFresh(p, f);
  }

  lemma TokenFresh(p: Plan, f: Fine)
    requires FineInv(p, f) && f.list != []
    ensures Token(f.sent, f.list[0]) !in f.sent
  {
    hide Counted, Ordered, Passed, Shaded, Working, Carried, Chronicled, Waiting, Sendings, Zeroed, NoDup, Token;
    SendPlaces(p, f.wait, f.list, f.sent, f.lifted, f.moved, f.inPlace);
  }

  lemma LeftTimes(n: nat, m: nat, k: nat)
    requires n == m + 1
    ensures n * k == m * k + k
  {}

  lemma SendBudget(p: Plan, f: Fine)
    requires Prepared(p) && FineInv(p, f) && Can(p, f, Send)
    ensures Budget(p, Do(p, f, Send)) < Budget(p, f)
  {
    hide Prepared, FineInv, Costs, AllToks, Left;
    var g := Do(p, f, Send);
    SentKnown(p, f);
    DropsOne(AllToks(p), f.sent, Token(f.sent, f.list[0]));
    hide Token;
    LeftTimes(Left(AllToks(p), f.sent), Left(AllToks(p), g.sent), 3 * |p.out| + 4);
    assert g.works == f.works && |g.queue| == |f.queue| + 1;
    hide Do, Can;
    LeftTimes(|g.queue|, |f.queue|, 3 * |p.out| + 3);
  }

  lemma MoveBudget(p: Plan, f: Fine, move: Move)
    requires Prepared(p) && FineInv(p, f) && Can(p, f, move)
    ensures Budget(p, Do(p, f, move)) + (if Productive(move) then 1 else 0) <= Budget(p, f)
  {
    hide Prepared, FineInv, Load, AllToks, Left;
    if move.Send? {
      SendBudget(p, f);
    } else if Toils(move) {
      PreparedDomains(p);
      ToilCost(p, f, move);
      hide Do, Can;
    } else {
      Unproductive(p, f, move);
    }
  }

  lemma Unproductive(p: Plan, f: Fine, move: Move)
    requires Can(p, f, move) && !Productive(move)
    ensures var g := Do(p, f, move); g.sent == f.sent && Load(p, g) == Load(p, f)
  {
    hide LockFree, HeadGoes, HeadStays, Costs;
  }

  lemma {:induction false} BudgetLasts(p: Plan, n: nat, moves: seq<Move>)
    requires Prepared(p) && Follow(p, n, moves).Reached?
    ensures Productives(moves) + Budget(p, Follow(p, n, moves).fine) <= Budget(p, Start(p, n))
  {
    hide Prepared, FineInv, Budget, Can, Do;
    if moves != [] {
      var front := moves[..|moves| - 1];
      BudgetLasts(p, n, front);
      AlwaysFine(p, n, front);
      MoveBudget(p, Follow(p, n, front).fine, moves[|moves| - 1]);
    }
  }

  lemma {:induction false} FreeCosts(p: Plan, works: seq<Work>)
    requires forall w | 0 <= w < |works| :: works[w].Free?
    ensures Costs(p, works) == 0
  {
    if works != [] { FreeCosts(p, works[..|works| - 1]); }
  }

  /** In every interleaving the moves other than looking at the list are at most
      2 N (3 N + 4), where N is the number of nodes. */
  lemma WorkIsBounded(p: Plan, n: nat, moves: seq<Move>)
    requires Prepared(p) && Follow(p, n, moves).Reached?
    ensures Productives(moves) <= 2 * |p.out| * (3 * |p.out| + 4)
  {
    BudgetLasts(p, n, moves) by { hide Prepared, Follow; }
    hide Prepared, Follow, Budget, Productives;
    StartBudget(p, n);
  }

  lemma StartBudget(p: Plan, n: nat)
    ensures Budget(p, Start(p, n)) == 2 * |p.out| * (3 * |p.out| + 4)
  {
    FreeCosts(p, Start(p, n).works);
    AllToksCard(p);
    assert AllToks(p) - {} == AllToks(p);
    hide AllToks, Costs;
    assert Left(AllToks(p), Start(p, n).sent) == 2 * |p.out|;
    hide Left;
    assert Load(p, Start(p, n)) == 0;
    hide Load;
  }

  lemma AllToksCard(p: Plan)
    ensures |AllToks(p)| == 2 * |p.out|
  {
    FirstsCard(p.out.Keys, false);
    FirstsCard(p.out.Keys, true);
    assert Firsts(p.out.Keys, false) !! Firsts(p.out.Keys, true);
  }

  // ---------- no deadlock ----------

  /** The first outdated node in collection order that has not ended. */
  lemma FirstUnended(p: Plan, f: Fine, u: Key) returns (x: Key)
    requires Prepared(p) && u in p.list && Tok(u, false) !in f.ended
    ensures x in p.list && Tok(x, false) !in f.ended
    ensures forall q | q in Stale(p, x) :: Tok(q, false) in f.ended
  {
    ListedInOrder(p);
    var i := 0;
    while i < |p.order| && !(p.order[i] in p.list && Tok(p.order[i], false) !in f.ended)
      invariant forall j | 0 <= j < i && j < |p.order| :: p.order[j] in p.list ==> Tok(p.order[j], false) in f.ended
    {
      i := i + 1;
    }
    assert u in p.order;
    x := p.order[i];
    forall q | q in Stale(p, x) ensures Tok(q, false) in f.ended {
      assert q in In(p, x);
      assert q in p.order[..i];
    }
  }

  lemma AllCounted(p: Plan, f: Fine, x: Key)
    requires Prepared(p) && FineInv(p, f) && Quiet(f) && x in p.list
    requires forall q | q in Stale(p, x) :: Tok(q, false) in f.ended
    ensures |Stale(p, x)| <= |Releasers(f.released, x)|
  {
    hide Prepared, FineInv;
    QuietMeansEnded(p, f);
    FirstsCard(Stale(p, x), false);
    forall t | t in Firsts(Stale(p, x), false) ensures t in Releasers(f.released, x) {
      assert (t, x) in f.released;
    }
    SubsetCard(Firsts(Stale(p, x), false), Releasers(f.released, x));
  }

  lemma QuietReady(p: Plan, f: Fine, x: Key)
    requires Prepared(p) && FineInv(p, f) && Quiet(f) && x in p.list
    requires forall q | q in Stale(p, x) :: Tok(q, false) in f.ended
    ensures Ready(p, f.wait, x)
  {
    hide Prepared, FineInv, Stale, Quiet, Releasers, Counts;
    ListedInOrder(p);
    ListedNotWhite(p, x);
    AllCounted(p, f, x);
    ListedCounts(p, x);
    CounterFacts(p, f, x);
    InitialCounter(p, x);
    if p.colour[x] == Black { BlackHasStale(p, x); }
  }

  /** With all quiet, a ready node that was not sent is in the list, moved if it was BLACK. */
  lemma QuietListed(p: Plan, f: Fine, x: Key)
    requires Prepared(p) && FineInv(p, f) && Quiet(f) && x in p.list && Ready(p, f.wait, x) && Tok(x, false) !in f.sent
    ensures x in f.list && x in p.colour && (x in f.moved || p.colour[x] == Grey)
  {
    hide Prepared, FineInv, Quiet, Ready;
    ListedInOrder(p);
    if p.colour[x] != Grey {
      QuietMoved(p, f, x);
      MovedListed(p, f, x);
    } else {
      GreyListed(p, f, x);
    }
  }

  lemma QuietMoved(p: Plan, f: Fine, x: Key)
    requires FineInv(p, f) && Quiet(f) && Zeroed(p, f.wait, x)
    ensures x in f.moved
  {
    hide Counted, Places, Ordered, Passed, Shaded, Working, Chronicled, Waiting, Sendings, Zeroed;
  }

  lemma MovedListed(p: Plan, f: Fine, x: Key)
    requires FineInv(p, f) && x in f.moved && Tok(x, false) !in f.sent
    ensures x in f.list
  {
    hide Counted, Ordered, Passed, Shaded, Working, Carried, Chronicled, Waiting, Sendings, Zeroed, NoDup;
  }

  lemma GreyListed(p: Plan, f: Fine, x: Key)
    requires FineInv(p, f) && x in p.list && x in p.colour && p.colour[x] == Grey && Tok(x, false) !in f.sent
    ensures x in f.list
  {
    hide Counted, Ordered, Passed, Shaded, Working, Carried, Chronicled, Waiting, Sendings, NoDup, Ready;
    assert x !in f.lifted;
    assert Untouched(p, f.sent, f.lifted, x);
  }

  lemma BlackHead(p: Plan, f: Fine)
    requires FineInv(p, f) && f.list != []
    ensures f.list[0] in f.colour && f.list[0] in p.colour
    ensures f.colour[f.list[0]] == Black ==>
              p.colour[f.list[0]] == Black && !Ready(p, f.wait, f.list[0]) && f.list[0] in p.list
  {
    LiftedAreZeroed(p, f);
    hide Counted, Ordered, Passed, Working, Carried, Chronicled, Waiting, Sendings, NoDup, Ready;
    assert f.list[0] in f.list;
  }

  /** With all quiet, the head of the list can be sent. */
  lemma QuietHead(p: Plan, f: Fine)
    requires Prepared(p) && FineInv(p, f) && Quiet(f) && f.list != []
    ensures HeadGoes(f)
  {
    hide Prepared, FineInv, Quiet, Stale, Ready, Before;
    var h := f.list[0];
    BlackHead(p, f);
    if f.colour[h] == Black {
      UnreadyUnsent(p, f, h);
      QuietMeansEnded(p, f);
      var x := FirstUnended(p, f, h);
      QuietReady(p, f, x);
      QuietListed(p, f, x);
      var j :| 0 <= j < |f.list| && f.list[j] == x;
      ListOrder(p, f, j);
      GreysStand(p, h, x);
    }
  }

  lemma ListOrder(p: Plan, f: Fine, j: nat)
    requires FineInv(p, f) && 0 < j < |f.list| && f.list[0] !in f.moved
    ensures f.list[j] !in f.moved && Before(p.list, f.list[0], f.list[j])
  {
    hide Counted, Places, Passed, Shaded, Waiting, Chronicled, Working, Carried, Sendings, Before;
  }

  lemma GreysStand(p: Plan, h: Key, x: Key)
    requires Prepared(p) && Before(p.list, h, x) && h in p.colour && p.colour[h] == Black
    ensures x in p.colour && p.colour[x] == Black
  {
    hide Topological, BlacksInOrder, Stale, Counts, NoDup;
  }

  /** A pass comes to its end. */
  lemma {:induction false} EndPass(p: Plan, n: nat, moves: seq<Move>) returns (more: seq<Move>)
    requires Prepared(p) && Follow(p, n, moves).Reached?
    requires Follow(p, n, moves).fine.master.Passing? && !Follow(p, n, moves).fine.aborted
    ensures moves <= more
    ensures Follow(p, n, more).Reached?
    ensures var f, g := Follow(p, n, moves).fine, Follow(p, n, more).fine;
            !g.aborted && g.master.Watching? && f.sent <= g.sent
    ensures var f, g := Follow(p, n, moves).fine, Follow(p, n, more).fine; HeadGoes(f) ==> g.sent != f.sent
    ensures var f, g := Follow(p, n, moves).fine, Follow(p, n, more).fine;
            !HeadGoes(f) ==> g.list == f.list && g.queue == f.queue && g.works == f.works
    decreases |Follow(p, n, moves).fine.list|
  {
    hide Prepared, Follow, FineInv, Token;
    var f := Follow(p, n, moves).fine;
    AlwaysFine(p, n, moves);
    FineShaped(p, f);
    if HeadGoes(f) {
      TokenFresh(p, f);
      Extend(p, n, moves, Send);
      assert Token(f.sent, f.list[0]) in Do(p, f, Send).sent;
      more := EndPass(p, n, moves + [Send]);
    } else {
      if f.list != [] { BlackHead(p, f); }
      Extend(p, n, moves, Leave);
      more := moves + [Leave];
    }
  }

  /** The master, outside a pass while all is quiet, leaves, or sends something more. */
  lemma NextPass(p: Plan, n: nat, moves: seq<Move>) returns (more: seq<Move>)
    requires Prepared(p) && Follow(p, n, moves).Reached?
    requires var f := Follow(p, n, moves).fine; !f.aborted && Quiet(f) && f.master.Watching?
    ensures moves <= more
    ensures Follow(p, n, more).Reached?
    ensures var f, g := Follow(p, n, moves).fine, Follow(p, n, more).fine;
            && !g.aborted && f.sent <= g.sent
            && ((Over(g) && g.list == []) || (g.master.Watching? && g.sent != f.sent))
  {
    hide Prepared, Follow, FineInv;
    var f := Follow(p, n, moves).fine;
    AlwaysFine(p, n, moves);
    FineShaped(p, f);
    Extend(p, n, moves, Look);
    more := moves + [Look];
    if f.list != [] {
      QuietHead(p, f);
      Extend(p, n, more, Enter);
      more := EndPass(p, n, more + [Enter]);
    }
  }

  /** A master that wants the lock while all is quiet gets it and gives it back. */
  lemma WantedPass(p: Plan, n: nat, moves: seq<Move>) returns (more: seq<Move>)
    requires Prepared(p) && Follow(p, n, moves).Reached?
    requires var f := Follow(p, n, moves).fine; !f.aborted && Quiet(f) && f.master.Wanting?
    ensures moves <= more
    ensures Follow(p, n, more).Reached?
    ensures var f, g := Follow(p, n, moves).fine, Follow(p, n, more).fine;
            !g.aborted && f.sent <= g.sent && g.master.Watching?
  {
    hide Prepared, Follow, FineInv;
    AlwaysFine(p, n, moves);
    FineShaped(p, Follow(p, n, moves).fine);
    Extend(p, n, moves, Enter);
    more := EndPass(p, n, moves + [Enter]);
  }

  lemma LeftDrops(p: Plan, f: Fine, g: Fine)
    requires FineInv(p, g) && f.sent <= g.sent && f.sent != g.sent
    ensures Left(AllToks(p), g.sent) < Left(AllToks(p), f.sent)
  {
    assert g.sent <= AllToks(p) by { SentAreToks(p, g); }
    hide FineInv, AllToks;
    SubsetCard(AllToks(p) - g.sent, AllToks(p) - f.sent);
    var t :| t in g.sent && t !in f.sent;
    assert t in AllToks(p) - f.sent && t !in AllToks(p) - g.sent;
  }

  lemma SentAreToks(p: Plan, f: Fine)
    requires FineInv(p, f)
    ensures f.sent <= AllToks(p)
  {
    hide Counted, Places, Ordered, Passed, Shaded, Waiting, Chronicled, Working, Carried, Ready;
    forall t | t in f.sent ensures t in AllToks(p) {
      assert t == Tok(t.key, t.again);
      assert t.key in p.out.Keys;
    }
  }

  /** From a moment when the master watches, the run can be brought to its end. */
  lemma {:induction false} FinishWatching(p: Plan, n: nat, moves: seq<Move>) returns (more: seq<Move>)
    requires Prepared(p) && n >= 1 && Follow(p, n, moves).Reached?
    requires !Follow(p, n, moves).fine.aborted && Follow(p, n, moves).fine.master.Watching?
    ensures moves <= more
    ensures Follow(p, n, more).Reached? && Over(Follow(p, n, more).fine)
    ensures var f, g := Follow(p, n, moves).fine, Follow(p, n, more).fine; f.sent <= g.sent && g.list == []
    decreases Left(AllToks(p), Follow(p, n, moves).fine.sent)
  {
    hide Prepared, Follow, FineInv, Quiet, Left;
    more := LetWorkersFinish(p, n, moves);
    more := NextPass(p, n, more);
    if !Over(Follow(p, n, more).fine) {
      AlwaysFine(p, n, more);
      LeftDrops(p, Follow(p, n, moves).fine, Follow(p, n, more).fine);
      more := FinishWatching(p, n, more);
    }
  }

  /** With all quiet and nothing listed, every outdated node has ended. */
  lemma NothingLeft(p: Plan, f: Fine, u: Key)
    requires Prepared(p) && FineInv(p, f) && Quiet(f) && f.list == [] && u in p.list
    ensures Tok(u, false) in f.ended
  {
    hide Prepared, FineInv, Quiet, Stale, Ready, Before;
    if Tok(u, false) !in f.ended {
      QuietMeansEnded(p, f);
      var x := FirstUnended(p, f, u);
      QuietReady(p, f, x);
      QuietListed(p, f, x);
      assert false;
    }
  }

  /** As long as the master has not left, the run can be continued until every outdated node has ended. */
  lemma CanRunAll(p: Plan, n: nat, moves: seq<Move>) returns (more: seq<Move>)
    requires Prepared(p) && n >= 1 && Follow(p, n, moves).Reached?
    requires !Follow(p, n, moves).fine.aborted && !Follow(p, n, moves).fine.master.Gone?
    ensures moves <= more
    ensures Follow(p, n, more).Reached? && Over(Follow(p, n, more).fine) && Follow(p, n, more).fine.list == []
    ensures Follow(p, n, moves).fine.sent <= Follow(p, n, more).fine.sent
    ensures forall u | u in p.list :: Tok(u, false) in Follow(p, n, more).fine.ended && Ended(u) in Follow(p, n, more).fine.log
  {
    hide Prepared, Follow, FineInv, Quiet;
    more := moves;
    if Follow(p, n, more).fine.master.Passing? { more := EndPass(p, n, more); }
    more := LetWorkersFinish(p, n, more);
    if Follow(p, n, more).fine.master.Wanting? { more := WantedPass(p, n, more); }
    more := FinishWatching(p, n, more);
    AlwaysFine(p, n, more);
    var g := Follow(p, n, more).fine;
    forall u | u in p.list ensures Tok(u, false) in g.ended && Ended(u) in g.log {
      NothingLeft(p, g, u);
      EndedInLog(p, g, u);
    }
  }

  lemma EndedInLog(p: Plan, f: Fine, u: Key)
    requires FineInv(p, f) && Tok(u, false) in f.ended
    ensures Ended(u) in f.log
  {
    hide Counted, Places, Ordered, Passed, Shaded, Working, Carried, Waiting, Sendings, Chronicled;
    Happened(f.log, f.begun, f.ended, u);
  }

  /** No deadlock: every run that no failing recipe has ended can be continued until the stage is over. */
  lemma CanFinish(p: Plan, n: nat, moves: seq<Move>) returns (more: seq<Move>)
    requires Prepared(p) && n >= 1 && Follow(p, n, moves).Reached? && !Follow(p, n, moves).fine.aborted
    ensures moves <= more
    ensures Follow(p, n, more).Reached? && Over(Follow(p, n, more).fine)
  {
    hide Prepared, Follow, FineInv, Quiet;
    if Follow(p, n, moves).fine.master.Gone? {
      more := LetWorkersFinish(p, n, moves);
    } else {
      more := CanRunAll(p, n, moves);
    }
  }
}
