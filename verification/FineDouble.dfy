/** The last BLACK node of a run can be dispatched twice, or never. */
module FineDouble {
  import opened Colours
  import opened Lists
  import opened Scheduling
  import opened SchedulingInvariant
  import opened SchedulingTheorems
  import opened FineScheduling
  import FineInvariant
  import opened FineMatching
  import opened FineGreedy

  // ---------- the critical moment ----------

  lemma BlackFacts(p: Plan, s: State, u: Key)
    requires Prepared(p) && Inv(p, s) && u in s.colour && s.colour[u] == Black
    ensures u in p.out && u in p.colour && p.colour[u] == Black && !Ready(p, s.wait, u)
    ensures u in p.list && u in s.list && u !in s.sent && u !in s.ended
  {
    hide Topological, BlacksInOrder, Counters, Queued, Jobs, Scope, Logged, GreysFirst, NoDup, Stale, Counts;
  }

  lemma TaskNotBlack(p: Plan, s: State, w: nat)
    requires Inv(p, s) && w < |s.jobs| && s.jobs[w].Running?
    ensures s.jobs[w].task in s.colour ==> s.colour[s.jobs[w].task] != Black
  {
    assert JobOk(p, s.jobs[w], s.begun, s.ended, s.released) by { hide Counters, Listed, Queued, Tinted, GreysFirst, Logged, Scope, JobOk; }
    hide Counters, Queued, GreysFirst, Logged, Scope, Jobs;
  }

  /** Only a release to zero can take the colour BLACK away. */
  lemma OnlyReleaseUncolours(p: Plan, s: State, step: Step, u: Key)
    requires Inv(p, s) && Enabled(p, s, step) && u in s.colour && s.colour[u] == Black
    ensures var t := Next(p, s, step);
            (u in t.colour && t.colour[u] == Black) || (step.Release? && step.child == u && s.wait[u] == 1)
  {
    hide Inv, Remove, AfterRelease;
    if step.Complete? { TaskNotBlack(p, s, step.worker); }
  }

  lemma Loses(p: Plan, s: State, step: Step, u: Key)
    requires Inv(p, s) && Exhausted(p, s, LeaveOne) && Polite(p, s, step) && u in s.colour && s.colour[u] == Black
    ensures step.Release? && step.child == u && s.wait[u] == 1
  {
    hide Inv, Next;
    OnlyReleaseUncolours(p, s, step, u);
    hide Enabled;
    assert SomeBlack(Next(p, s, step)) ==> Allowed(p, s, LeaveOne, step);
  }

  /** Worker `w` is about to count `u` to zero, and `u` is alone in the list. */
  ghost predicate Critical(p: Plan, s: State, w: nat, u: Key) {
    && Enabled(p, s, Release(w, u)) && s.wait[u] == 1 && s.list == [u] && !Enabled(p, s, Dispatch)
    && u in p.list && u in p.colour && p.colour[u] == Black && !Ready(p, s.wait, u)
  }

  /** When nothing more can be done without losing the last BLACK node, the moment is critical. */
  lemma LastBlack(p: Plan, s: State) returns (w: nat, u: Key)
    requires Prepared(p) && Inv(p, s) && !s.aborted && !s.finish && |s.jobs| >= 1
    requires SomeBlack(s) && Exhausted(p, s, LeaveOne)
    ensures Critical(p, s, w, u)
  {
    hide Prepared, Inv, Exhausted, Ready;
    u :| u in s.colour && s.colour[u] == Black;
    BlackFacts(p, s, u);
    var step := Progress(p, s, u);
    hide Enabled;
    if Enabled(p, s, Dispatch) { Loses(p, s, Dispatch, u); }
    Loses(p, s, step, u);
    w := step.worker;
    assert step == Release(w, u);
    forall x | x in s.colour && s.colour[x] == Black ensures x == u { Loses(p, s, step, x); }
    AloneInList(p, s, u);
  }

  lemma AloneInList(p: Plan, s: State, u: Key)
    requires Inv(p, s) && u in s.list && !s.aborted && !s.finish && !Enabled(p, s, Dispatch)
    requires forall x | x in s.colour && s.colour[x] == Black :: x == u
    ensures s.list == [u]
  {
    hide Counters, History, Queued, Tinted, Jobs, Scope, Logged;
    assert forall x | x in s.list :: x in s.colour;
    assert s.list[0] in s.list && s.colour[s.list[0]] == Black;
    if |s.list| > 1 { Distinct(s.list, 0, 1); }
    assert forall j | 0 <= j < |s.list| :: s.colour[s.list[j]] == Black;
  }

  lemma Distinct<T>(s: seq<T>, i: nat, j: nat)
    requires NoDup(s) && i < j < |s|
    ensures s[i] != s[j]
  {}

  // ---------- letting the workers finish ----------

  ghost function Cost(p: Plan, work: Work): nat {
    match work
    case Free => 0
    case Runs(t) => 3 * |p.out| + 2
    case Purges(t) => 3 * |p.out| + 1
    case Releases(t, todo) => 3 * |todo|
    case Lifts(t, todo, u) => 3 * |todo| + 2
    case Drops(t, todo, u) => 3 * |todo| + 1
  }

  ghost function Costs(p: Plan, works: seq<Work>): nat {
    if works == [] then 0 else Costs(p, works[..|works| - 1]) + Cost(p, works[|works| - 1])
  }

  ghost function Load(p: Plan, f: Fine): nat {
    Costs(p, f.works) + |f.queue| * (3 * |p.out| + 3)
  }

  lemma {:induction false} CostsUpdate(p: Plan, works: seq<Work>, w: nat, work: Work)
    requires w < |works|
    ensures Costs(p, works[w := work]) == Costs(p, works) - Cost(p, works[w]) + Cost(p, work)
  {
    var front := works[..|works| - 1];
    if w == |works| - 1 {
      assert works[w := work][..|works| - 1] == front;
    } else {
      CostsUpdate(p, front, w, work);
      assert works[w := work][..|works| - 1] == front[w := work];
    }
  }

  lemma OnwardCost(p: Plan, t: Tok, todo: set<Key>)
    ensures Cost(p, Onward(t, todo)) == 3 * |todo|
  {}

  lemma OutSmall(p: Plan, k: Key)
    requires Domains(p) && k in p.out
    ensures |p.out[k]| <= |p.out|
  {
    SubsetCard(p.out[k], p.out.Keys);
  }

  /** A move of a worker that has a task. */
  ghost predicate Toils(move: Move) {
    move.Pop? || move.Whiten? || move.Purge? || move.Count? || move.Lift? || move.Drop?
  }

  lemma MultiplyLess(a: nat, b: nat)
    requires a > 0
    ensures (a - 1) * b == a * b - b
  {}

  lemma CountCost(p: Plan, f: Fine, w: nat, u: Key)
    requires Can(p, f, Count(w, u))
    ensures Cost(p, Do(p, f, Count(w, u)).works[w]) < Cost(p, f.works[w])
  {
    hide LockFree, HeadGoes, HeadStays;
    var t, todo := f.works[w].tok, f.works[w].todo;
    OnwardCost(p, t, todo - {u});
    assert todo == (todo - {u}) + {u};
    hide Onward;
  }

  lemma WorkCost(p: Plan, f: Fine, move: Move)
    requires Domains(p) && Can(p, f, move) && Toils(move) && !move.Pop?
    ensures Cost(p, Do(p, f, move).works[move.worker]) < Cost(p, f.works[move.worker])
  {
    hide LockFree, HeadGoes, HeadStays, Onward;
    var w := move.worker;
    match move
    case Purge(_) =>
      OutSmall(p, f.works[w].tok.key);
      OnwardCost(p, f.works[w].tok, p.out[f.works[w].tok.key]);
      hide Domains;
    case Count(_, u) => CountCost(p, f, w, u); hide Do, Can;
    case Drop(_) => OnwardCost(p, f.works[w].tok, f.works[w].todo); hide Domains;
    case _ => hide Domains;
  }

  lemma WorkersOnly(p: Plan, f: Fine, move: Move)
    requires Can(p, f, move) && Toils(move)
    ensures var g, w := Do(p, f, move), move.worker;
            && g.sent == f.sent && g.master == f.master && !g.aborted
            && w < |f.works| && g.works == f.works[w := g.works[w]]
            && g.queue == if move.Pop? then f.queue[1..] else f.queue
  {
    hide LockFree, HeadGoes, HeadStays, Onward, Remove;
  }

  lemma ToilCost(p: Plan, f: Fine, move: Move)
    requires Domains(p) && Can(p, f, move) && Toils(move)
    ensures Load(p, Do(p, f, move)) < Load(p, f)
    ensures var g := Do(p, f, move); g.sent == f.sent && g.master == f.master && !g.aborted
  {
    hide Costs, Domains;
    var g, w := Do(p, f, move), move.worker;
    WorkersOnly(p, f, move);
    CostsUpdate(p, f.works, w, g.works[w]);
    if move.Pop? {
      MultiplyLess(|f.queue|, 3 * |p.out| + 3);
    } else {
      hide Do, Can;
      WorkCost(p, f, move);
      hide Cost;
    }
  }

  lemma TaskKnown(p: Plan, f: Fine, w: nat)
    requires Prepared(p) && FineInvariant.FineInv(p, f) && w < |f.works| && !f.works[w].Free?
    ensures f.works[w].tok.key in p.out
    ensures f.works[w].Releases? ==> f.works[w].todo != {} && f.works[w].todo <= p.out.Keys
  {
    hide Topological, Coloured, BlacksInOrder, FineInvariant.Zeroed, Ready;
    hide FineInvariant.Counted, FineInvariant.Places, FineInvariant.Ordered, FineInvariant.Passed, FineInvariant.Shaded,
         FineInvariant.Waiting, FineInvariant.Chronicled, FineInvariant.Working, FineInvariant.Carried;
    FineInvariant.WorkAt(p, f, w);
  }

  lemma FineShaped(p: Plan, f: Fine)
    requires FineInvariant.FineInv(p, f)
    ensures Shaped(p, f)
  {}

  /** While a worker has a task or the queue has one, and the master is not in a pass, a worker can move. */
  lemma SomeToil(p: Plan, f: Fine, w: nat) returns (move: Move)
    requires Prepared(p) && FineInvariant.FineInv(p, f) && !f.aborted && !f.master.Passing?
    requires w < |f.works| && (!f.works[w].Free? || f.queue != [])
    ensures Toils(move) && Can(p, f, move)
  {
    hide Prepared, FineInvariant.FineInv;
    FineShaped(p, f);
    if x: nat :| x < |f.works| && f.works[x].Drops? {
      move := Drop(x);
    } else if f.works[w].Free? {
      move := Pop(w);
    } else {
      TaskKnown(p, f, w);
      if f.works[w].Runs? {
        move := Whiten(w);
      } else if f.works[w].Purges? {
        move := Purge(w);
      } else if f.works[w].Releases? {
        var u :| u in f.works[w].todo;
        move := Count(w, u);
      } else {
        move := Lift(w);
      }
    }
  }

  /** The workers can finish everything that has been sent, without the master. */
  lemma {:induction false} LetWorkersFinish(p: Plan, n: nat, moves: seq<Move>) returns (more: seq<Move>)
    requires Prepared(p) && n >= 1 && Follow(p, n, moves).Reached?
    requires !Follow(p, n, moves).fine.aborted && !Follow(p, n, moves).fine.master.Passing?
    ensures moves <= more
    ensures Follow(p, n, more).Reached?
    ensures var f, g := Follow(p, n, moves).fine, Follow(p, n, more).fine;
            && g.sent == f.sent && g.master == f.master && !g.aborted
            && Quiet(g)
    decreases Load(p, Follow(p, n, moves).fine)
  {
    hide Prepared, Follow, Can, Do, Load, FineInvariant.FineInv;
    var f := Follow(p, n, moves).fine;
    FineInvariant.AlwaysFine(p, n, moves);
    if w: nat :| w < |f.works| && (!f.works[w].Free? || f.queue != []) {
      var move := SomeToil(p, f, w);
      PreparedDomains(p);
      ToilCost(p, f, move);
      Extend(p, n, moves, move);
      more := LetWorkersFinish(p, n, moves + [move]);
    } else {
      more := moves;
      assert |f.works| == n;
      assert f.works[0].Free?;
    }
  }

  lemma PreparedDomains(p: Plan)
    requires Prepared(p)
    ensures Domains(p)
  {}

  // ---------- a few moves in a row ----------

  /** The master may begin a pass that sends just the head of the list. */
  ghost predicate HeadAlone(p: Plan, f: Fine) {
    && Shaped(p, f) && !f.aborted && f.master.Watching? && LockFree(f)
    && HeadGoes(f) && (|f.list| > 1 ==> f.list[1] in f.colour && f.colour[f.list[1]] == Black)
  }

  ghost function AfterPass(f: Fine): Fine
    requires f.list != []
  {
    var k := f.list[0];
    f.(queue := f.queue + [Token(f.sent, k)], list := f.list[1..], sent := f.sent + {Token(f.sent, k)},
       inPlace := if k in f.moved then f.inPlace else f.inPlace + {k})
  }

  lemma PassMoves(p: Plan, f: Fine)
    requires HeadAlone(p, f)
    ensures Can(p, f, Look) && Can(p, Do(p, f, Look), Enter) && Can(p, Do(p, Do(p, f, Look), Enter), Send)
    ensures var g := Do(p, Do(p, Do(p, f, Look), Enter), Send); Can(p, g, Leave) && Do(p, g, Leave) == AfterPass(f)
  {}

  lemma PassHead(p: Plan, n: nat, moves: seq<Move>) returns (more: seq<Move>)
    requires Follow(p, n, moves).Reached? && HeadAlone(p, Follow(p, n, moves).fine)
    ensures Follow(p, n, more) == Reached(AfterPass(Follow(p, n, moves).fine))
  {
    var f := Follow(p, n, moves).fine;
    PassMoves(p, f);
    hide Follow, Can, Do, HeadAlone;
    Extend(p, n, moves, Look);
    Extend(p, n, moves + [Look], Enter);
    Extend(p, n, moves + [Look] + [Enter], Send);
    Extend(p, n, moves + [Look] + [Enter] + [Send], Leave);
    more := moves + [Look] + [Enter] + [Send] + [Leave];
  }

  /** Worker `w` holds a child that it counted to zero. */
  ghost predicate Lifting(p: Plan, f: Fine, w: nat) {
    Shaped(p, f) && !f.aborted && f.master.Watching? && LockFree(f) && w < |f.works| && f.works[w].Lifts?
  }

  ghost function AfterLift(f: Fine, w: nat): Fine
    requires w < |f.works| && f.works[w].Lifts?
  {
    var k := f.works[w];
    f.(list := [k.child] + Remove(f.list, k.child), works := f.works[w := Onward(k.tok, k.todo)],
       lifted := f.lifted + {k.child}, moved := f.moved + {k.child})
  }

  lemma LiftMoves(p: Plan, f: Fine, w: nat)
    requires Lifting(p, f, w)
    ensures Can(p, f, Lift(w)) && Can(p, Do(p, f, Lift(w)), Drop(w)) && Do(p, Do(p, f, Lift(w)), Drop(w)) == AfterLift(f, w)
    ensures AfterLift(f, w).master.Watching? && LockFree(AfterLift(f, w))
  {
    var k := f.works[w];
    hide Remove;
    assert f.works[w := Drops(k.tok, k.todo, k.child)][w := Onward(k.tok, k.todo)] == f.works[w := Onward(k.tok, k.todo)];
  }

  lemma MoveToFront(p: Plan, n: nat, moves: seq<Move>, w: nat) returns (more: seq<Move>)
    requires Follow(p, n, moves).Reached? && Lifting(p, Follow(p, n, moves).fine, w)
    ensures Follow(p, n, more) == Reached(AfterLift(Follow(p, n, moves).fine, w))
  {
    var f := Follow(p, n, moves).fine;
    LiftMoves(p, f, w);
    hide Follow, Can, Do, Lifting;
    Extend(p, n, moves, Lift(w));
    Extend(p, n, moves + [Lift(w)], Drop(w));
    more := moves + [Lift(w)] + [Drop(w)];
  }

  /** Worker `w` is about to count `u` to zero. */
  ghost predicate Poised(p: Plan, f: Fine, w: nat, u: Key) {
    && Shaped(p, f) && !f.aborted && f.master.Watching? && LockFree(f)
    && w < |f.works| && f.works[w].Releases? && u in f.works[w].todo && u in p.out && f.wait[u] == 1
  }

  ghost function AfterCount(f: Fine, w: nat, u: Key): Fine
    requires w < |f.works| && f.works[w].Releases? && u in f.wait
  {
    var t := f.works[w].tok;
    f.(wait := f.wait[u := f.wait[u] - 1], released := f.released + {(t, u)}, colour := f.colour[u := Grey],
       works := f.works[w := Lifts(t, f.works[w].todo - {u}, u)])
  }

  lemma CountMove(p: Plan, f: Fine, w: nat, u: Key)
    requires Poised(p, f, w, u)
    ensures Can(p, f, Count(w, u)) && Do(p, f, Count(w, u)) == AfterCount(f, w, u) && Lifting(p, AfterCount(f, w, u), w)
  {
    hide Remove;
  }

  lemma CountToZero(p: Plan, n: nat, moves: seq<Move>, w: nat, u: Key) returns (more: seq<Move>)
    requires Follow(p, n, moves).Reached? && Poised(p, Follow(p, n, moves).fine, w, u)
    ensures Follow(p, n, more) == Reached(AfterCount(Follow(p, n, moves).fine, w, u))
    ensures Lifting(p, AfterCount(Follow(p, n, moves).fine, w, u), w)
  {
    CountMove(p, Follow(p, n, moves).fine, w, u);
    hide Follow, Can, Do, Lifting, Poised;
    Extend(p, n, moves, Count(w, u));
    more := moves + [Count(w, u)];
  }

  /** A node about to be counted to zero, unsent, at the head of the list and with no other node ready. */
  ghost predicate Exposed(p: Plan, f: Fine, w: nat, u: Key) {
    && Poised(p, f, w, u) && Tok(u, false) !in f.sent && NoDup(f.list)
    && f.list != [] && f.list[0] == u && forall x | x in f.list && x != u :: x in f.colour && f.colour[x] == Black
  }

  /** The state after `u` has been counted to zero, sent from its place, moved to the front, and sent again. */
  ghost function AfterTwice(f: Fine, w: nat, u: Key): Fine
    requires w < |f.works| && f.works[w].Releases? && u in f.wait && f.list != []
  {
    var t, todo := f.works[w].tok, f.works[w].todo - {u};
    f.(wait := f.wait[u := f.wait[u] - 1], released := f.released + {(t, u)}, colour := f.colour[u := Grey],
       works := f.works[w := Onward(t, todo)], list := f.list[1..], queue := f.queue + [Tok(u, false)] + [Tok(u, true)],
       sent := f.sent + {Tok(u, false)} + {Tok(u, true)}, lifted := f.lifted + {u}, moved := f.moved + {u},
       inPlace := if u in f.moved then f.inPlace else f.inPlace + {u})
  }

  lemma TwiceStates(p: Plan, f: Fine, w: nat, u: Key)
    requires Exposed(p, f, w, u)
    ensures HeadAlone(p, AfterCount(f, w, u)) && Lifting(p, AfterPass(AfterCount(f, w, u)), w)
    ensures HeadAlone(p, AfterLift(AfterPass(AfterCount(f, w, u)), w))
    ensures AfterPass(AfterLift(AfterPass(AfterCount(f, w, u)), w)) == AfterTwice(f, w, u)
  {
    CountMove(p, f, w, u);
    var a := AfterCount(f, w, u);
    var b := AfterPass(a);
    assert |f.list| > 1 ==> f.list[1] in f.list;
    assert u !in f.list[1..];
    RemoveSplits(b.list, u);
    assert LockFree(b);
    LiftMoves(p, b, w);
    hide Remove, LockFree, Can, Do;
    var c := AfterLift(b, w);
    assert c.list[1..] == f.list[1..];
    assert f.works[w := Lifts(f.works[w].tok, f.works[w].todo - {u}, u)][w := c.works[w]] == f.works[w := c.works[w]];
  }

  lemma SendTwice(p: Plan, n: nat, moves: seq<Move>, w: nat, u: Key) returns (more: seq<Move>)
    requires Follow(p, n, moves).Reached? && Exposed(p, Follow(p, n, moves).fine, w, u)
    ensures Follow(p, n, more) == Reached(AfterTwice(Follow(p, n, moves).fine, w, u))
  {
    var f := Follow(p, n, moves).fine;
    TwiceStates(p, f, w, u);
    hide Follow, HeadAlone, Lifting;
    more := CountToZero(p, n, moves, w, u);
    hide Exposed, Poised, AfterPass, AfterLift, AfterCount;
    more := PassHead(p, n, more);
    more := MoveToFront(p, n, more, w);
    more := PassHead(p, n, more);
  }
}
