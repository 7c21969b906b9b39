/** A node that can be dispatched twice lets another start too early: the run that shows it. */
module FineEarly {
  import opened Colours
  import opened Lists
  import opened Scheduling
  import opened SchedulingInvariant
  import opened FineScheduling
  import FineInvariant
  import opened FineSafety
  import opened FineMatching
  import opened FineGreedy
  import opened FineDouble
  import opened FineStall
  import opened FineTwice

  lemma OvertakesFacts(p: Plan, c: Key, v: Key, u: Key)
    requires Overtakes(p, c, v, u) && Prepared(p)
    ensures c in p.list && u in p.list && v in p.list && u in p.out && v in Stale(p, c) && u in Stale(p, c) && u != v
    ensures u in p.colour && p.colour[u] == Black && FineInvariant.UpTo(p, u, u)
    ensures forall y | FineInvariant.UpTo(p, y, u) :: v !in Stale(p, y)
  {
    hide Topological, Coloured, BlacksInOrder;
  }

  // ---------- last: the second release of `c` brings it to zero ----------

  ghost predicate Latest(p: Plan, c: Key, v: Key, u: Key) {
    Overtakes(p, c, v, u) && forall x | Overtakes(p, c, x, u) :: !Before(p.order, v, x)
  }

  lemma ComesLater<T>(s: seq<T>, x: T, y: T, k: nat)
    requires NoDup(s) && k < |s| && s[k] == x && Before(s, x, y)
    ensures exists j :: k < j < |s| && s[j] == y
  {}

  lemma {:induction false} TakeLatest(p: Plan, c: Key, v: Key, u: Key, i: nat) returns (x: Key)
    requires Prepared(p) && Overtakes(p, c, v, u) && i <= |p.order| && v in p.order[..i]
    requires forall j | i <= j < |p.order| :: !Overtakes(p, c, p.order[j], u)
    ensures Latest(p, c, x, u)
  {
    hide Overtakes;
    var k: nat := i - 1;
    if Overtakes(p, c, p.order[k], u) {
      x := p.order[k];
      ListOnce(p);
      hide Prepared;
      forall y | Overtakes(p, c, y, u) ensures !Before(p.order, x, y) {
        if Before(p.order, x, y) { ComesLater(p.order, x, y, k); }
      }
    } else {
      x := TakeLatest(p, c, v, u, k);
    }
  }

  /** When only `v` is kept from ending, the other outdated prerequisites of `c` have ended. */
  lemma OthersEnded(p: Plan, s: State, c: Key, v: Key, u: Key, x: Key)
    requires Prepared(p) && Latest(p, c, v, u) && Stalled(p, s, {v}, {}) && x in Stale(p, c) && x != v
    ensures x in s.ended
  {
    hide Prepared, Stalled, Stale, Overtakes, Before;
    OvertakesFacts(p, c, v, u);
    if x !in s.ended {
      StaleBefore(p, x, c);
      InOrder(p, x);
      var i: nat :| i < |p.order| && p.order[i] == x;
      var z, r := Chain(p, s, {v}, {}, x, i);
      assert x != u;
      forall y | FineInvariant.UpTo(p, y, u) ensures x !in Stale(p, y) {
        if x in Stale(p, y) {
          assert y in p.list;
          StaleBefore(p, x, y);
          UpToTrans(p, z, x, y);
          if y != u { UpToTrans2(p, z, y, u); }
        }
      }
      assert Overtakes(p, c, x, u) by { MakeOvertakes(p, c, x, u); }
      ChainOrder(p, v, z, x);
    }
  }

  lemma MakeOvertakes(p: Plan, c: Key, x: Key, u: Key)
    requires c in p.list && x in Stale(p, c) && u in Stale(p, c) && u != x && u in p.colour && p.colour[u] == Black
    requires forall y | FineInvariant.UpTo(p, y, u) :: x !in Stale(p, y)
    ensures Overtakes(p, c, x, u)
  {
    hide Stale, Before;
  }

  lemma ChainOrder(p: Plan, v: Key, z: Key, x: Key)
    requires Prepared(p) && v in Stale(p, z) && FineInvariant.UpTo(p, z, x) && x in p.list && x in p.colour && p.colour[x] == Black
    ensures Before(p.order, v, x)
  {
    hide Prepared, Before, Stale;
    StaleBefore(p, v, z);
    ListOnce(p);
    hide BlacksInOrder, Domains, NoDup;
    if z != x {
      BlackPair(p, z, x);
      BeforeTrans(p.order, v, z, x);
    }
  }

  /** So `c` waits for `v` alone. */
  lemma WaitsForOne(p: Plan, s: State, c: Key, v: Key, u: Key)
    requires Prepared(p) && Latest(p, c, v, u) && Stalled(p, s, {v}, {})
    ensures c in s.wait && s.wait[c] == 1 && !Ready(p, s.wait, c) && c in s.list && u in s.ended && c in p.out
  {
    hide Prepared, Stalled, Stale, Overtakes, Before, Freed, Inv, Ready;
    OvertakesFacts(p, c, v, u);
    StalledInv(p, s, {v}, {});
    ListedInOrder(p);
    forall x | x in Stale(p, c) && x != v ensures x in s.ended { OthersEnded(p, s, c, v, u, x); }
    AllReleased(p, s, {v}, {}, c);
    FreedAreStale(p, s, c);
    assert Stale(p, c) - Freed(p, s.released, c) == {v};
    CounterMeaning(p, s, c);
    PreparedDomains(p);
    StaleIsBlack(p, c);
    HeldUnready(p, s, c);
  }

  /** A worker with one recipe running beside the matched ones finishes it and begins to release. */
  lemma FinishExtra(p: Plan, n: nat, moves: seq<Move>, e: nat, t: Tok) returns (more: seq<Move>)
    requires Follow(p, n, moves).Reached?
    requires var f := Follow(p, n, moves).fine;
             && Shaped(p, f) && !f.aborted && f.master.Watching? && LockFree(f) && NoDup(f.list)
             && e < |f.works| && f.works[e] == Runs(t) && t.key in p.out && t.key !in f.list
    ensures var f := Follow(p, n, moves).fine;
            Follow(p, n, more) == Reached(f.(colour := f.colour[t.key := White], ended := f.ended + {t},
              log := f.log + [Ended(t.key)], works := f.works[e := Onward(t, p.out[t.key])]))
  {
    var f := Follow(p, n, moves).fine;
    FinishStates(p, f, e, t);
    hide Follow, Can, Do;
    Extend(p, n, moves, Whiten(e));
    Extend(p, n, moves + [Whiten(e)], Purge(e));
    more := moves + [Whiten(e)] + [Purge(e)];
  }

  lemma FinishStates(p: Plan, f: Fine, e: nat, t: Tok)
    requires Shaped(p, f) && !f.aborted && f.master.Watching? && LockFree(f) && NoDup(f.list)
    requires e < |f.works| && f.works[e] == Runs(t) && t.key in p.out && t.key !in f.list
    ensures Can(p, f, Whiten(e)) && Can(p, Do(p, f, Whiten(e)), Purge(e))
    ensures Do(p, Do(p, f, Whiten(e)), Purge(e)) ==
            f.(colour := f.colour[t.key := White], ended := f.ended + {t},
               log := f.log + [Ended(t.key)], works := f.works[e := Onward(t, p.out[t.key])])
  {
    RemoveSplits(f.list, t.key);
    hide Remove, NoDup, Onward;
    assert f.works[e := Purges(t)][e := Onward(t, p.out[t.key])] == f.works[e := Onward(t, p.out[t.key])];
  }

  /** A worker counts `c` to zero, moves it to the front, the master sends it, and another worker starts it. */
  lemma CountAndStart(p: Plan, n: nat, moves: seq<Move>, e: nat, c: Key, i: nat) returns (more: seq<Move>)
    requires Follow(p, n, moves).Reached?
    requires var f := Follow(p, n, moves).fine;
             && Poised(p, f, e, c) && NoDup(f.list) && (forall x | x in f.list && x != c :: x in f.colour && f.colour[x] == Black)
             && i < |f.works| && f.works[i].Free? && f.queue == []
    ensures Follow(p, n, more).Reached? && Follow(p, n, more).fine.log == Follow(p, n, moves).fine.log + [Began(c)]
  {
    var f := Follow(p, n, moves).fine;
    StartStates(p, f, e, c, i);
    hide Follow, Can, Do, Poised, HeadAlone, Lifting, AfterCount, AfterLift, AfterPass;
    more := CountToZero(p, n, moves, e, c);
    more := MoveToFront(p, n, more, e);
    more := PassHead(p, n, more);
    Extend(p, n, more, Pop(i));
    more := more + [Pop(i)];
  }

  lemma StartStates(p: Plan, f: Fine, e: nat, c: Key, i: nat)
    requires Poised(p, f, e, c) && NoDup(f.list) && forall x | x in f.list && x != c :: x in f.colour && f.colour[x] == Black
    requires i < |f.works| && f.works[i].Free? && f.queue == []
    ensures e < |f.works| && f.works[e].Releases? && c in f.wait && Lifting(p, AfterCount(f, e, c), e)
    ensures var g := AfterLift(AfterCount(f, e, c), e); HeadAlone(p, g) && g.list != []
    ensures var h := AfterPass(AfterLift(AfterCount(f, e, c), e)); Can(p, h, Pop(i)) && Do(p, h, Pop(i)).log == f.log + [Began(c)]
  {
    CountMove(p, f, e, c);
    LiftMoves(p, AfterCount(f, e, c), e);
    RemoveFacts(f.list, c);
    var g := AfterLift(AfterCount(f, e, c), e);
    hide Remove, NoDup, LockFree, Onward;
    assert g.list == [c] + Remove(f.list, c);
    assert |g.list| > 1 ==> g.list[1] in Remove(f.list, c);
  }

  /** From the moment when `c` waits for `v` alone while an extra worker still runs `u` a second time. */
  lemma StartsEarly(p: Plan, n: nat, moves: seq<Move>, s: State, c: Key, v: Key, u: Key) returns (more: seq<Move>)
    requires Prepared(p) && Latest(p, c, v, u) && Stalled(p, s, {v}, {}) && Follow(p, n, moves).Reached?
    requires Match(p, s, Follow(p, n, moves).fine) && n == |s.jobs| + 1
    requires |Follow(p, n, moves).fine.works| == n && Follow(p, n, moves).fine.works[n - 1] == Runs(Tok(u, false))
    ensures Follow(p, n, more).Reached? && !Timely(p, Follow(p, n, more).fine.log)
  {
    hide Prepared, Stalled, Stale, Overtakes, Follow, FineInvariant.FineInv, Match, Timely, Poised, Done, Inv, Enabled, Ready;
    var f, t := Follow(p, n, moves).fine, Tok(u, false);
    FineInvariant.AlwaysFine(p, n, moves);
    OvertakesFacts(p, c, v, u);
    WaitsForOne(p, s, c, v, u);
    var i := SomeIdle(p, s, {v}, {});
    EarlyFacts(p, s, f, c, v, u, i);
    more := FinishExtra(p, n, moves, n - 1, t);
    var g := Follow(p, n, more).fine;
    StaleEdge(p, c, u);
    ExtraIsPoised(p, f, g, n - 1, t, c);
    more := CountAndStart(p, n, more, n - 1, c, i);
    EndsUntimely(p, f.log + [Ended(u)], c, v);
  }

  lemma StaleEdge(p: Plan, c: Key, u: Key)
    requires u in Stale(p, c)
    ensures u in p.out && c in p.out[u]
  {}

  lemma ExtraIsPoised(p: Plan, f: Fine, g: Fine, e: nat, t: Tok, c: Key)
    requires Shaped(p, f) && !f.aborted && f.master.Watching? && LockFree(f) && e < |f.works| && f.works[e] == Runs(t)
    requires t.key in p.out && c in p.out[t.key] && c in p.out && c in f.wait && f.wait[c] == 1
    requires g == f.(colour := f.colour[t.key := White], ended := f.ended + {t},
                     log := f.log + [Ended(t.key)], works := f.works[e := Onward(t, p.out[t.key])])
    ensures Poised(p, g, e, c)
  {}

  lemma EarlyFacts(p: Plan, s: State, f: Fine, c: Key, v: Key, u: Key, i: nat)
    requires Prepared(p) && Stalled(p, s, {v}, {}) && FineInvariant.FineInv(p, f) && Match(p, s, f)
    requires u in s.ended && i < |s.jobs| && s.jobs[i].Idle? && s.queue == []
    ensures Shaped(p, f) && !f.aborted && f.master.Watching? && LockFree(f) && NoDup(f.list)
    ensures u !in f.list && i < |f.works| && f.works[i].Free? && f.queue == [] && f.wait == s.wait
    ensures (forall x | x in f.list :: x in f.colour && f.colour[x] == Black) && Ended(v) !in f.log
  {
    hide Prepared, Stalled, FineInvariant.FineInv, Inv, Enabled;
    StalledInv(p, s, {v}, {});
    CannotDispatch(p, s, {v}, {});
    FineShaped(p, f);
    FreeLock(p, s, f);
    FineNoDup(p, f);
    JobMatches(p, s, f, i);
    EndedNotListed(p, s, u);
    EndedMatches(p, s, f, v);
    if s.list != [] { AllBlack(p, s); }
    hide SameJobs, Done, HeadGoes, LockFree;
  }

  lemma EndedNotListed(p: Plan, s: State, u: Key)
    requires Inv(p, s) && u in s.ended
    ensures u !in s.list
  {
    hide Counters, Queued, Tinted, Jobs, Scope, Logged, GreysFirst, NoDup, Ready;
  }

  lemma EndedMatches(p: Plan, s: State, f: Fine, v: Key)
    requires Match(p, s, f) && FineInvariant.FineInv(p, f) && v !in s.ended
    ensures Ended(v) !in f.log
  {
    hide FineInvariant.Counted, FineInvariant.Places, FineInvariant.Ordered, FineInvariant.Passed, FineInvariant.Shaded,
         FineInvariant.Working, FineInvariant.Carried, FineInvariant.Waiting, FineInvariant.Sendings, FineInvariant.Chronicled,
         SameJobs, SameQueue, HeadGoes;
    Happened(f.log, f.begun, f.ended, v);
  }

  lemma EndsUntimely(p: Plan, log: seq<Event>, c: Key, v: Key)
    requires c in p.list && v in Stale(p, c) && Ended(v) !in log
    ensures !Timely(p, log + [Began(c)])
  {
    hide Stale;
    var more := log + [Began(c)];
    assert more[|log|] == Began(c) && more[..|log|] == log;
  }

  // ---------- the theorem ----------

  lemma OvertakesHeld(p: Plan, c: Key, v: Key, u: Key)
    requires Prepared(p) && Overtakes(p, c, v, u)
    ensures FirstHeld(p, {v}, {u}, u)
  {
    OvertakesFacts(p, c, v, u);
    hide Prepared, Overtakes, Stale, Before, FineInvariant.UpTo;
  }

  /** The first phase: `u` has been dispatched twice, an extra worker runs the first dispatch, `v` has not ended. */
  lemma DoublePhase(p: Plan, n: nat, c: Key, v: Key, u: Key) returns (s: State, moves: seq<Move>)
    requires Prepared(p) && Overtakes(p, c, v, u) && n >= 4
    ensures Inv(p, s) && Follow(p, n, moves).Reached? && Match(p, s, Follow(p, n, moves).fine) && |s.jobs| == n - 1
    ensures Kept(Avoid({v}, {}), s) && Follow(p, n, moves).fine.works[n - 1] == Runs(Tok(u, false))
  {
    hide Prepared, Inv, Match, Follow, Overtakes, Kept, Init, Start, FirstHeld;
    OvertakesFacts(p, c, v, u);
    OvertakesHeld(p, c, v, u);
    BeginHeld(p, n - 1, n, {v}, {u});
    s, moves := DispatchTwice(p, n, Init(p, n - 1), [], {v}, {u}, u, n - 1);
    assert {u} - {u} == {};
  }

  /** A plan with such nodes has a run in which `c` starts before `v` has ended. */
  lemma EarlyRun(p: Plan, n: nat, c: Key, v: Key, u: Key) returns (moves: seq<Move>)
    requires Prepared(p) && Overtakes(p, c, v, u) && n >= 4
    ensures Follow(p, n, moves).Reached? && !Timely(p, Follow(p, n, moves).fine.log)
  {
    InPlan(p, c, v, u);
    var x := TakeLatest(p, c, v, u, |p.order|);
    hide Prepared, Inv, Match, Follow, Overtakes, Exhausted, Kept, Stalled, Timely;
    assert Overtakes(p, c, x, u);
    var s, begin := DoublePhase(p, n, c, x, u);
    var t: State;
    t, moves := Drive(p, Avoid({x}, {}), s, n, begin);
    IsStalled(p, t, Follow(p, n, moves).fine, {x}, {});
    moves := StartsEarly(p, n, moves, t, c, x, u);
  }

  lemma InPlan(p: Plan, c: Key, v: Key, u: Key)
    requires Prepared(p) && Overtakes(p, c, v, u)
    ensures v in p.order[..|p.order|]
  {
    OvertakesFacts(p, c, v, u);
    ListedInOrder(p);
    hide Prepared, Overtakes;
    assert p.order[..|p.order|] == p.order;
  }

  /** With four workers or more: every outdated node starts only after its outdated prerequisites have
      ended, in every interleaving of moves, exactly when the plan is not risky. */
  lemma NoEarlyStart(p: Plan, n: nat)
    requires Prepared(p) && n >= 4
    ensures !Risky(p) <==> forall moves | Follow(p, n, moves).Reached? :: Timely(p, Follow(p, n, moves).fine.log)
  {
    hide Prepared, Follow, Overtakes, Timely, Patient;
    if Risky(p) {
      var c, v, u :| Overtakes(p, c, v, u);
      var moves := EarlyRun(p, n, c, v, u);
    } else {
      hide Risky;
      forall moves | Follow(p, n, moves).Reached? ensures Timely(p, Follow(p, n, moves).fine.log) {
        SafeRun(p, n, moves);
      }
    }
  }
}
