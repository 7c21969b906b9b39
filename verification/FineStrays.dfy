/** Nodes that were never collected: when the locked stage starts one of them. */
module FineStrays {
  import opened Colours
  import opened Lists
  import opened Scheduling
  import opened SchedulingInvariant
  import opened FineScheduling
  import opened FineInvariant
  import opened FineSafety
  import opened FineDouble
  import opened FineProgress
  import opened FineDoubleAll

  /** The outdated prerequisites of `u` that can be dispatched twice. */
  ghost function Doubles(p: Plan, u: Key): set<Key> {
    set v | v in Stale(p, u) && v in p.colour && p.colour[v] == Black
  }

  /** No uncollected node starts with a counter that the dispatches of its outdated prerequisites can
      bring to zero.  A caller can check this before the run. */
  ghost predicate Tame(p: Plan)
    requires Domains(p)
  {
    forall u | u in p.out && u !in p.order :: !Reachable(p, u)
  }

  ghost predicate Reachable(p: Plan, u: Key)
    requires u in p.wait
  {
    1 <= p.wait[u] <= |Stale(p, u)| + |Doubles(p, u)|
  }

  // ---------- a tame plan starts only outdated nodes ----------

  ghost predicate OnlyListed(p: Plan, toks: set<Tok>) {
    forall t | t in toks :: t.key in p.list
  }

  lemma StrayReleasers(p: Plan, f: Fine, u: Key)
    requires Prepared(p) && FineInv(p, f) && OnlyListed(p, f.sent)
    ensures |Releasers(f.released, u)| <= |Stale(p, u)| + |Doubles(p, u)|
  {
    hide Prepared, FineInv, Stale, Doubles;
    var firsts, seconds := Firsts(Stale(p, u), false), Firsts(Doubles(p, u), true);
    forall t | t in Releasers(f.released, u) ensures t in firsts + seconds {
      StrayReleaser(p, f, u, t);
      assert t == Tok(t.key, t.again);
    }
    FirstsCard(Stale(p, u), false);
    FirstsCard(Doubles(p, u), true);
    hide Firsts, Releasers;
    SubsetCard(Releasers(f.released, u), firsts + seconds);
  }

  lemma StrayReleaser(p: Plan, f: Fine, u: Key, t: Tok)
    requires Prepared(p) && FineInv(p, f) && OnlyListed(p, f.sent) && t in Releasers(f.released, u)
    ensures t.key in Stale(p, u) && (t.again ==> t.key in Doubles(p, u))
  {
    assert (t, u) in f.released;
    hide Prepared;
    ReleasedEdge(p, f, u, t);
    if t.again {
      assert t == Tok(t.key, true);
      SentAgainWasBlack(p, f, t.key);
    }
    hide FineInv;
  }

  lemma ReleasedEdge(p: Plan, f: Fine, u: Key, t: Tok)
    requires FineInv(p, f) && (t, u) in f.released
    ensures t in f.sent && t.key in p.out && u in p.out[t.key]
  {
    hide Places, Ordered, Passed, Shaded, Working, Carried, Waiting, Chronicled, Releasers, Ready;
  }

  lemma StrayUnready(p: Plan, f: Fine, u: Key)
    requires Prepared(p) && Tame(p) && FineInv(p, f) && OnlyListed(p, f.sent) && u in p.out && u !in p.order
    ensures !Ready(p, f.wait, u)
  {
    StrayReleasers(p, f, u);
    StrayIsWhite(p, u);
    hide Prepared, Stale, Doubles, Releasers;
    hide Places, Ordered, Passed, Shaded, Working, Carried, Waiting, Chronicled, Sendings;
  }

  lemma StrayIsWhite(p: Plan, u: Key)
    requires Prepared(p) && u in p.out && u !in p.order
    ensures u in p.colour && p.colour[u] == White && u in p.wait && u !in p.list
  {
    hide Topological, BlacksInOrder, Stale, Counts, NoDup, GreysFirst;
  }

  lemma {:induction false} TameSends(p: Plan, n: nat, moves: seq<Move>)
    requires Prepared(p) && Tame(p) && Follow(p, n, moves).Reached?
    ensures OnlyListed(p, Follow(p, n, moves).fine.sent)
  {
    hide Prepared, Tame, FineInv, Can, Do, Ready;
    if moves != [] {
      var front, move := moves[..|moves| - 1], moves[|moves| - 1];
      TameSends(p, n, front);
      AlwaysFine(p, n, front);
      TameMove(p, Follow(p, n, front).fine, move);
    }
  }

  lemma TameMove(p: Plan, f: Fine, move: Move)
    requires Prepared(p) && Tame(p) && FineInv(p, f) && Can(p, f, move) && OnlyListed(p, f.sent)
    ensures OnlyListed(p, Do(p, f, move).sent)
  {
    hide Prepared, Tame, FineInv, Ready, LockFree, HeadStays;
    if move.Send? {
      HeadIsReady(p, f);
      if f.list[0] !in p.order { StrayUnready(p, f, f.list[0]); }
    }
  }

  // ---------- a plan that is not tame starts a stray ----------

  /** When all has ended, a reachable stray has been counted to zero. */
  lemma StrayZeroed(p: Plan, f: Fine, u: Key)
    requires Prepared(p) && FineInv(p, f) && Quiet(f) && u in p.out && u !in p.order && Reachable(p, u)
    requires forall q | q in p.list :: Tok(q, false) in f.ended
    requires forall q | q in Doubles(p, u) :: Tok(q, true) in f.ended
    ensures Zeroed(p, f.wait, u)
  {
    hide Prepared, FineInv, Quiet;
    QuietMeansEnded(p, f);
    var firsts, seconds := Firsts(Stale(p, u), false), Firsts(Doubles(p, u), true);
    forall t | t in firsts + seconds ensures t in Releasers(f.released, u) {
      assert (t, u) in f.released;
    }
    FirstsCard(Stale(p, u), false);
    FirstsCard(Doubles(p, u), true);
    assert firsts !! seconds;
    SubsetCard(firsts + seconds, Releasers(f.released, u));
    StrayIsWhite(p, u);
    StrayCounter(p, f, u);
  }

  lemma StrayCounter(p: Plan, f: Fine, u: Key)
    requires FineInv(p, f) && u in p.out
    ensures u in f.wait && u in p.wait && f.wait[u] == p.wait[u] - |Releasers(f.released, u)|
  {
    hide Places, Ordered, Passed, Shaded, Working, Carried, Waiting, Chronicled, Sendings, Releasers;
  }

  /** With all quiet and nothing listed, a node counted to zero has been sent. */
  lemma ZeroedWasSent(p: Plan, f: Fine, u: Key)
    requires FineInv(p, f) && Quiet(f) && f.list == [] && Zeroed(p, f.wait, u)
    ensures Tok(u, false) in f.sent
  {
    hide FineInv, Quiet, Zeroed;
    QuietMoved(p, f, u);
    if Tok(u, false) !in f.sent { MovedListed(p, f, u); }
  }

  /** A run in which a reachable stray starts. */
  lemma StrayStarts(p: Plan, u: Key) returns (n: nat, moves: seq<Move>)
    requires Prepared(p) && u in p.out && u !in p.order && Reachable(p, u)
    ensures Follow(p, n, moves).Reached? && Began(u) in Follow(p, n, moves).fine.log
  {
    hide Prepared, Follow, FineInv, Reachable;
    n, moves := DoubledRun(p);
    AlwaysFine(p, n, moves);
    var g := Follow(p, n, moves).fine;
    QuietMeansEnded(p, g);
    forall q | q in Doubles(p, u) ensures Tok(q, true) in g.ended {
      DoubleIsListed(p, u, q);
    }
    StrayZeroed(p, g, u);
    ZeroedWasSent(p, g, u);
    StartedInLog(p, g, u);
  }

  lemma DoubleIsListed(p: Plan, u: Key, q: Key)
    requires q in Doubles(p, u)
    ensures q in p.list && q in p.colour && p.colour[q] == Black
  {}

  lemma StartedInLog(p: Plan, f: Fine, u: Key)
    requires FineInv(p, f) && Tok(u, false) in f.begun
    ensures Began(u) in f.log
  {
    hide Counted, Places, Ordered, Passed, Shaded, Working, Carried, Waiting, Sendings, Chronicled;
    Happened(f.log, f.begun, f.ended, u);
  }

  lemma StartedWasSent(p: Plan, f: Fine, k: Key)
    requires FineInv(p, f) && Began(k) in f.log && OnlyListed(p, f.sent)
    ensures k in p.list
  {
    hide Counted, Places, Ordered, Passed, Shaded, Working, Carried, Waiting, Chronicled, Ready;
    Happened(f.log, f.begun, f.ended, k);
    assert Tok(k, false).key == k && Tok(k, true).key == k;
  }

  /** Only outdated nodes ever start, in every interleaving of moves with any number of workers, exactly
      when the plan is tame. */
  lemma OnlyOutdatedStart(p: Plan)
    requires Prepared(p)
    ensures Tame(p) <==> forall n, moves, k | Follow(p, n, moves).Reached? && Began(k) in Follow(p, n, moves).fine.log :: k in p.list
  {
    PreparedDomains(p);
    hide Prepared, Follow, Domains, FineInv, Reachable;
    if Tame(p) {
      forall n, moves, k | Follow(p, n, moves).Reached? && Began(k) in Follow(p, n, moves).fine.log ensures k in p.list {
        TameSends(p, n, moves);
        AlwaysFine(p, n, moves);
        StartedWasSent(p, Follow(p, n, moves).fine, k);
      }
    } else {
      var u :| u in p.out && u !in p.order && Reachable(p, u);
      var n, moves := StrayStarts(p, u);
      StrayIsWhite(p, u);
    }
  }
}
