/** When the stage, taken at the grain of its locks, runs every outdated node exactly once, and
    when it runs none too early. */
module FineTheorems {
  import opened Colours
  import opened Lists
  import opened Scheduling
  import opened SchedulingInvariant
  import opened FineScheduling
  import FineInvariant
  import opened FineSafety
  import opened FineMatching
  import opened FineGreedy
  import opened FineDouble

  // ---------- exactly once ----------

  /** Any plan in which an outdated node waits for another has a run up to a critical moment. */
  lemma CriticalRun(p: Plan, n: nat) returns (s: State, moves: seq<Move>, w: nat, u: Key)
    requires Prepared(p) && !Flat(p) && n >= 1
    ensures Follow(p, n, moves).Reached? && Match(p, s, Follow(p, n, moves).fine) && Critical(p, s, w, u)
  {
    InitInv(p, n);
    StartMatches(p, n, n);
    BlackAtStart(p, n);
    assert Follow(p, n, []) == Reached(Start(p, n));
    hide Prepared, Inv, Match, Follow, Exhausted, Critical;
    s, moves := Drive(p, LeaveOne, Init(p, n), n, []);
    MatchGoesOn(p, s, Follow(p, n, moves).fine);
    w, u := LastBlack(p, s);
  }

  lemma MatchGoesOn(p: Plan, s: State, f: Fine)
    requires Match(p, s, f)
    ensures !s.aborted && !s.finish && !f.aborted
  {}

  lemma BlackAtStart(p: Plan, n: nat)
    requires Prepared(p) && !Flat(p)
    ensures Kept(LeaveOne, Init(p, n))
  {
    hide Topological, BlacksInOrder, Coloured;
    var u :| u in p.list && p.colour[u] == Black;
    assert u in Init(p, n).colour && Init(p, n).colour[u] == Black;
  }

  lemma CriticalIsPoised(p: Plan, s: State, f: Fine, w: nat, u: Key)
    requires Match(p, s, f) && Shaped(p, f) && Enabled(p, s, Release(w, u)) && s.wait[u] == 1 && !Enabled(p, s, Dispatch)
    ensures Poised(p, f, w, u)
  {
    FreeLock(p, s, f);
    JobMatches(p, s, f, w);
    hide SameJobs, SameQueue, Done, HeadGoes, LockFree;
  }

  lemma CriticalIsExposed(p: Plan, s: State, f: Fine, w: nat, u: Key)
    requires FineInvariant.FineInv(p, f) && Match(p, s, f) && Critical(p, s, w, u)
    ensures Exposed(p, f, w, u) && f.list == [u] && f.wait == s.wait
  {
    hide FineInvariant.FineInv, Enabled, Ready, SameJobs, SameQueue;
    FineShaped(p, f);
    UnreadyUnsent(p, f, u);
    CriticalIsPoised(p, s, f, w, u);
    hide Poised;
  }

  /** The run goes on to dispatch its last BLACK node twice, and the recipe starts twice. */
  lemma RunsTwice(p: Plan, n: nat, moves: seq<Move>, w: nat, u: Key) returns (more: seq<Move>)
    requires Prepared(p) && n >= 1 && Follow(p, n, moves).Reached? && Exposed(p, Follow(p, n, moves).fine, w, u)
    ensures Follow(p, n, more).Reached? && multiset(Follow(p, n, more).fine.log)[Began(u)] == 2
  {
    var f := Follow(p, n, moves).fine;
    hide Follow, Prepared, Exposed, Poised;
    more := SendTwice(p, n, moves, w, u);
    PoisedFacts(p, f, w, u);
    hide FineInvariant.FineInv;
    more := LetWorkersFinish(p, n, more);
    FineInvariant.AlwaysFine(p, n, more);
    DrainedBegan(p, Follow(p, n, more).fine, u);
  }

  lemma PoisedFacts(p: Plan, f: Fine, w: nat, u: Key)
    requires Exposed(p, f, w, u)
    ensures !f.aborted && f.master.Watching?
    ensures w < |f.works| && f.works[w].Releases? && u in f.wait && f.list != []
  {
    hide LockFree, NoDup;
  }

  lemma DrainedBegan(p: Plan, g: Fine, u: Key)
    requires FineInvariant.FineInv(p, g) && g.queue == [] && Tok(u, false) in g.sent && Tok(u, true) in g.sent
    ensures multiset(g.log)[Began(u)] == 2
  {
    hide FineInvariant.Counted, FineInvariant.Places, FineInvariant.Ordered, FineInvariant.Passed, FineInvariant.Shaded,
         FineInvariant.Working, FineInvariant.Carried, FineInvariant.Sendings;
    assert Tok(u, false) !in g.queue && Tok(u, true) !in g.queue;
  }

  /** With any number of workers: no recipe starts or ends twice in any interleaving of moves, exactly
      when no outdated node has an outdated prerequisite. */
  lemma ExactlyOnce(p: Plan, n: nat)
    requires Prepared(p) && n >= 1
    ensures Flat(p) <==> forall moves | Follow(p, n, moves).Reached? :: NoDup(Follow(p, n, moves).fine.log)
  {
    PreparedDomains(p);
    hide Prepared, Flat, Follow;
    if Flat(p) {
      forall moves | Follow(p, n, moves).Reached? ensures NoDup(Follow(p, n, moves).fine.log) {
        FlatRunsOnce(p, n, moves);
      }
    } else {
      var s, moves, w, u := CriticalRun(p, n);
      FineInvariant.AlwaysFine(p, n, moves);
      CriticalIsExposed(p, s, Follow(p, n, moves).fine, w, u);
      var more := RunsTwice(p, n, moves, w, u);
      hide Exposed, Critical, Match, FineInvariant.FineInv;
      if NoDup(Follow(p, n, more).fine.log) { NoDupCounts(Follow(p, n, more).fine.log, Began(u)); }
    }
  }

  // ---------- everything runs ----------

  /** Every outdated node has ended. */
  ghost predicate AllRan(p: Plan, f: Fine) {
    forall u | u in p.list :: Ended(u) in f.log
  }

  lemma FlatRunsAll(p: Plan, n: nat, moves: seq<Move>)
    requires Prepared(p) && Flat(p) && Follow(p, n, moves).Reached? && Over(Follow(p, n, moves).fine)
    ensures AllRan(p, Follow(p, n, moves).fine)
  {
    hide Follow, Over;
    forall u | u in p.list ensures Ended(u) in Follow(p, n, moves).fine.log {
      FineInvariant.ListedNotWhite(p, u);
      GreysRun(p, n, moves, u);
    }
  }

  /** The run goes on: the master looks at the list while its last node is out of it. */
  lemma NeverRuns(p: Plan, n: nat, moves: seq<Move>, w: nat, u: Key) returns (more: seq<Move>)
    requires Prepared(p) && n >= 1 && Follow(p, n, moves).Reached?
    requires Exposed(p, Follow(p, n, moves).fine, w, u) && Follow(p, n, moves).fine.list == [u]
    ensures Follow(p, n, more).Reached? && Over(Follow(p, n, more).fine)
    ensures Follow(p, n, more).fine.sent == Follow(p, n, moves).fine.sent
  {
    var f := Follow(p, n, moves).fine;
    var counted := CountToZero(p, n, moves, w, u);
    var a := AfterCount(f, w, u);
    LastLookStates(p, a, w);
    hide Follow, Prepared, Exposed, Poised, Can, Do, FineInvariant.FineInv;
    Extend(p, n, counted, Lift(w));
    Extend(p, n, counted + [Lift(w)], Look);
    Extend(p, n, counted + [Lift(w)] + [Look], Drop(w));
    more := LetWorkersFinish(p, n, counted + [Lift(w)] + [Look] + [Drop(w)]);
  }

  lemma LastLookStates(p: Plan, a: Fine, w: nat)
    requires Lifting(p, a, w) && a.list == [a.works[w].child]
    ensures Can(p, a, Lift(w)) && Can(p, Do(p, a, Lift(w)), Look) && Can(p, Do(p, Do(p, a, Lift(w)), Look), Drop(w))
    ensures var g := Do(p, Do(p, Do(p, a, Lift(w)), Look), Drop(w)); g.master.Gone? && g.sent == a.sent && !g.aborted
  {
    assert Remove(a.list, a.works[w].child) == [];
  }

  /** With any number of workers: whenever the stage is over every outdated node has run, exactly when
      no outdated node has an outdated prerequisite. */
  lemma EveryoneRuns(p: Plan, n: nat)
    requires Prepared(p) && n >= 1
    ensures Flat(p) <==> forall moves | Follow(p, n, moves).Reached? && Over(Follow(p, n, moves).fine) ::
                           AllRan(p, Follow(p, n, moves).fine)
  {
    PreparedDomains(p);
    hide Prepared, Flat, Follow, Over;
    if Flat(p) {
      forall moves | Follow(p, n, moves).Reached? && Over(Follow(p, n, moves).fine) ensures AllRan(p, Follow(p, n, moves).fine) {
        FlatRunsAll(p, n, moves);
      }
    } else {
      var s, moves, w, u := CriticalRun(p, n);
      FineInvariant.AlwaysFine(p, n, moves);
      var f := Follow(p, n, moves).fine;
      CriticalIsExposed(p, s, f, w, u);
      UnreadyUnsent(p, f, u) by { hide Match, FineInvariant.FineInv, Exposed; }
      var more := NeverRuns(p, n, moves, w, u);
      FineInvariant.AlwaysFine(p, n, more);
      hide Exposed, Critical, Match, FineInvariant.FineInv;
      UnsentNotEnded(p, Follow(p, n, more).fine, u);
      CriticalListed(p, s, w, u);
    }
  }

  lemma CriticalListed(p: Plan, s: State, w: nat, u: Key)
    requires Critical(p, s, w, u)
    ensures u in p.list
  {}

  lemma UnsentNotEnded(p: Plan, f: Fine, u: Key)
    requires FineInvariant.FineInv(p, f) && Tok(u, false) !in f.sent && Tok(u, true) !in f.sent
    ensures Ended(u) !in f.log
  {
    hide FineInvariant.Counted, FineInvariant.Places, FineInvariant.Ordered, FineInvariant.Passed, FineInvariant.Shaded,
         FineInvariant.Working, FineInvariant.Carried, FineInvariant.Waiting;
    Happened(f.log, f.begun, f.ended, u);
  }
}
