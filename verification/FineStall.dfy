/** Runs driven until nothing more is allowed: what then has ended, and what the list looks like. */
module FineStall {
  import opened Colours
  import opened Lists
  import opened Scheduling
  import opened SchedulingInvariant
  import opened SchedulingTheorems
  import opened FineScheduling
  import FineInvariant
  import opened FineSafety
  import opened FineMatching
  import opened FineGreedy
  import opened FineDouble
  import opened FineTheorems

  // ---------- the order of the list ----------

  lemma BeforeTrans<T>(s: seq<T>, x: T, y: T, z: T)
    requires NoDup(s) && Before(s, x, y) && Before(s, y, z)
    ensures Before(s, x, z)
  {
    var i, j :| 0 <= i < j < |s| && s[i] == x && s[j] == y;
    var k, l :| 0 <= k < l < |s| && s[k] == y && s[l] == z;
    assert j == k;
  }

  lemma BeforeTotal<T>(s: seq<T>, x: T, y: T)
    requires x in s && y in s && x != y
    ensures Before(s, x, y) || Before(s, y, x)
  {
    var i :| 0 <= i < |s| && s[i] == x;
    var j :| 0 <= j < |s| && s[j] == y;
  }

  /** A prerequisite is collected before its dependent, and stands before it in the list if both are BLACK. */
  lemma StaleBefore(p: Plan, q: Key, x: Key)
    requires Prepared(p) && x in p.list && q in Stale(p, x)
    ensures Before(p.order, q, x) && q in p.list && q in p.colour && p.colour[x] == Black
    ensures p.colour[q] == Black ==> Before(p.list, q, x)
  {
    hide Coloured, BlacksInOrder;
    var i :| 0 <= i < |p.order| && p.order[i] == x;
    assert q in In(p, x) && q in p.order[..i];
    var j :| 0 <= j < i && p.order[..i][j] == q;
    assert p.order[j] == q;
    StaleIsBlack(p, x);
    if p.colour[q] == Black { BlacksBefore(p, q, x); }
  }

  lemma StaleIsBlack(p: Plan, x: Key)
    requires Domains(p) && Prepared(p) && x in p.list && Stale(p, x) != {}
    ensures p.colour[x] == Black
  {
    hide Topological, BlacksInOrder, Stale, Counts, NoDup, GreysFirst;
  }

  lemma BlacksBefore(p: Plan, q: Key, x: Key)
    requires Prepared(p) && q in p.list && x in p.list && p.colour[q] == Black == p.colour[x] && Before(p.order, q, x)
    ensures Before(p.list, q, x)
  {
    hide Coloured, Before;
    assert NoDup(p.order);
    hide Topological;
    if !Before(p.list, q, x) {
      FineInvariant.BeforeIsStrict(p.order, q, x);
      BeforeTotal(p.list, q, x) by { if q == x { BeforeSelf(p.order, q); } }
      BlackPair(p, x, q);
    }
  }

  lemma BeforeSelf<T>(s: seq<T>, x: T)
    requires NoDup(s)
    ensures !Before(s, x, x)
  {}

  lemma BlackPair(p: Plan, x: Key, y: Key)
    requires Domains(p) && BlacksInOrder(p) && Before(p.list, x, y)
    requires x in p.colour && y in p.colour && p.colour[x] == Black == p.colour[y]
    ensures Before(p.order, x, y)
  {
    var i, j :| 0 <= i < j < |p.list| && p.list[i] == x && p.list[j] == y;
  }

  lemma ListOnce(p: Plan)
    requires Prepared(p)
    ensures NoDup(p.list) && NoDup(p.order) && Domains(p) && BlacksInOrder(p)
  {
    hide NoDup, Domains, BlacksInOrder;
  }

  lemma UpToTrans(p: Plan, z: Key, q: Key, y: Key)
    requires Prepared(p) && FineInvariant.UpTo(p, z, q) && Before(p.list, q, y)
    ensures FineInvariant.UpTo(p, z, y)
  {
    ListOnce(p);
    hide Prepared, Before;
    if z != q { BeforeTrans(p.list, z, q, y); }
  }

  /** BLACK nodes up to `u` do not wait for `u` or for BLACK nodes after it. */
  lemma NotAfter(p: Plan, u: Key, h: Key, z: Key)
    requires Prepared(p) && FineInvariant.UpTo(p, z, u) && h in p.list && h in p.colour && p.colour[h] == Black
    requires h == u || Before(p.list, u, h)
    ensures h !in Stale(p, z)
  {
    hide Prepared, Before, Stale;
    ListOnce(p);
    if h in Stale(p, z) {
      StaleBefore(p, h, z);
      if z != u { BeforeTrans(p.list, h, z, u); }
      if h != u { BeforeTrans(p.list, h, u, h); }
      BeforeSelf(p.list, h);
    }
  }

  lemma InOrder(p: Plan, q: Key)
    requires Prepared(p) && q in p.list
    ensures exists i: nat :: i < |p.order| && p.order[i] == q
  {
    ListedInOrder(p);
    hide Prepared;
    assert q in p.order;
  }

  lemma UpToTrans2(p: Plan, z: Key, y: Key, u: Key)
    requires Prepared(p) && FineInvariant.UpTo(p, z, y) && FineInvariant.UpTo(p, y, u) && y != u
    ensures FineInvariant.UpTo(p, z, u)
  {
    hide Prepared, Before;
    UpToTrans(p, z, y, u);
  }

  // ---------- when nothing more is allowed ----------

  /** Everything else has been done that can be done while the nodes of `parked` run or wait and those
      of `held` are not counted to zero; there are workers to spare. */
  ghost predicate Stalled(p: Plan, s: State, parked: set<Key>, held: set<Key>) {
    && Inv(p, s) && !s.aborted && !s.finish && parked !! held && |s.jobs| > |parked| + |held|
    && Exhausted(p, s, Avoid(parked, held)) && Kept(Avoid(parked, held), s)
  }

  /** What the goal does not forbid cannot be done. */
  lemma CannotStep(p: Plan, s: State, parked: set<Key>, held: set<Key>, step: Step)
    requires Stalled(p, s, parked, held) && Works(step)
    requires step.Complete? ==> step.worker < |s.jobs| && s.jobs[step.worker].Running? && s.jobs[step.worker].task !in parked
    requires step.Release? ==> step.child !in held || step.child !in s.wait || s.wait[step.child] != 1
    ensures !Enabled(p, s, step)
  {
    hide Inv, Kept, Enabled;
    assert !Allowed(p, s, Avoid(parked, held), Dispatch);
    assert !Allowed(p, s, Avoid(parked, held), step);
    assert !Enabled(p, s, Dispatch);
    if Enabled(p, s, step) { KeysTyped(p, s, step); }
  }

  lemma KeysTyped(p: Plan, s: State, step: Step)
    requires Enabled(p, s, step)
    ensures step.Release? ==> step.child in s.wait
  {}

  lemma StalledInv(p: Plan, s: State, parked: set<Key>, held: set<Key>)
    requires Stalled(p, s, parked, held)
    ensures Inv(p, s) && Typed(p, s) && !s.aborted && !s.finish && parked !! s.ended && |s.jobs| > |parked| + |held|
    ensures Positive(s.wait, held) && parked !! held
  {
    hide Counters, History, Listed, Queued, Tinted, Jobs, Scope, Logged, GreysFirst, Positive;
  }

  /** A worker rests, runs a parked node, or has only held children left, whose counters are 1. */
  lemma WorkerStuck(p: Plan, s: State, parked: set<Key>, held: set<Key>, w: nat)
    requires Stalled(p, s, parked, held) && w < |s.jobs|
    ensures s.jobs[w].Running? ==> s.jobs[w].task in parked
    ensures s.jobs[w].Releasing? ==> forall u | u in s.jobs[w].todo :: u in held && u in s.wait && s.wait[u] == 1
  {
    hide Stalled, Inv, Enabled;
    StalledInv(p, s, parked, held);
    WorkerCan(p, s, w);
    if s.jobs[w].Running? && s.jobs[w].task !in parked { CannotStep(p, s, parked, held, Complete(w)); }
    forall u | s.jobs[w].Releasing? && u in s.jobs[w].todo ensures u in held && u in s.wait && s.wait[u] == 1 {
      if u !in held || u !in s.wait || s.wait[u] != 1 { CannotStep(p, s, parked, held, Release(w, u)); }
    }
  }

  lemma WorkerCan(p: Plan, s: State, w: nat)
    requires Inv(p, s) && !s.aborted && w < |s.jobs|
    ensures s.jobs[w].Running? ==> Enabled(p, s, Complete(w))
    ensures s.jobs[w].Releasing? ==> forall u | u in s.jobs[w].todo :: Enabled(p, s, Release(w, u))
  {
    hide Counters, History, Listed, Queued, Tinted, Jobs, Scope, Logged, GreysFirst, Edges;
    WorkerFacts(p, s, w);
  }

  /** Two workers cannot both be about to count the same node to zero. */
  lemma OneReleaser(p: Plan, s: State, u: Key, x: nat, y: nat)
    requires Prepared(p) && Inv(p, s) && u in p.list && u in s.wait && s.wait[u] == 1
    requires x < |s.jobs| && y < |s.jobs| && x != y
    requires s.jobs[x].Releasing? && u in s.jobs[x].todo
    ensures !(s.jobs[y].Releasing? && u in s.jobs[y].todo)
  {
    hide Inv, Prepared, Stale, Freed;
    if s.jobs[y].Releasing? && u in s.jobs[y].todo {
      ReleaserPending(p, s, u, x);
      ReleaserPending(p, s, u, y);
      DistinctTasks(p, s, x, y);
      ListedInOrder(p);
      CounterMeaning(p, s, u);
      var a, b := s.jobs[x].task, s.jobs[y].task;
      SubsetCard({a, b}, Stale(p, u) - Freed(p, s.released, u));
    }
  }

  lemma DistinctTasks(p: Plan, s: State, x: nat, y: nat)
    requires Inv(p, s) && x < |s.jobs| && y < |s.jobs| && x != y && !s.jobs[x].Idle? && !s.jobs[y].Idle?
    ensures s.jobs[x].task != s.jobs[y].task
  {
    hide Counters, History, Listed, Queued, Tinted, Scope, Logged, GreysFirst, JobOk, Busy;
  }

  /** A worker's task that has still to count an outdated node down is outdated and has not counted it. */
  lemma ReleaserPending(p: Plan, s: State, u: Key, w: nat)
    requires Prepared(p) && Inv(p, s) && u in p.list && w < |s.jobs| && s.jobs[w].Releasing? && u in s.jobs[w].todo
    ensures s.jobs[w].task in Stale(p, u) - Freed(p, s.released, u)
  {
    var k := s.jobs[w].task;
    assert JobOk(p, s.jobs[w], s.begun, s.ended, s.released) by {
      hide Counters, History, Listed, Queued, Tinted, Scope, Logged, GreysFirst, JobOk, Busy, Prepared;
    }
    assert k in p.list by {
      ListedInOrder(p);
      hide Counters, Listed, Queued, Tinted, Logged, GreysFirst, Jobs, Prepared;
      assert k in s.sent;
      PrerequisiteCollected(p, k, u);
    }
    hide Inv, Prepared;
  }

  /** What a busy worker is stuck on: the parked node it runs, or a held child. */
  ghost function Obstacle(s: State, w: nat): Key
    requires w < |s.jobs| && (s.jobs[w].Releasing? ==> s.jobs[w].todo != {})
  {
    match s.jobs[w]
    case Idle => ""
    case Running(k) => k
    case Releasing(k, todo) => var u :| u in todo; u
  }

  lemma ObstacleFacts(p: Plan, s: State, parked: set<Key>, held: set<Key>, w: nat)
    requires Stalled(p, s, parked, held) && w < |s.jobs| && !s.jobs[w].Idle?
    ensures s.jobs[w].Releasing? ==> s.jobs[w].todo != {}
    ensures if s.jobs[w].Running? then Obstacle(s, w) == s.jobs[w].task && Obstacle(s, w) in parked
            else Obstacle(s, w) in s.jobs[w].todo && Obstacle(s, w) in held && Obstacle(s, w) in s.wait && s.wait[Obstacle(s, w)] == 1
  {
    hide Stalled, Inv;
    StalledInv(p, s, parked, held);
    WorkerStuck(p, s, parked, held, w);
    WorkerFacts(p, s, w);
  }

  /** No two workers are stuck on the same node. */
  lemma OwnObstacle(p: Plan, s: State, parked: set<Key>, held: set<Key>, x: nat, y: nat)
    requires Prepared(p) && Stalled(p, s, parked, held) && (forall h | h in held :: h in p.list)
    requires x < |s.jobs| && y < |s.jobs| && x != y && !s.jobs[x].Idle? && !s.jobs[y].Idle?
    ensures s.jobs[x].Releasing? ==> s.jobs[x].todo != {}
    ensures s.jobs[y].Releasing? ==> s.jobs[y].todo != {}
    ensures Obstacle(s, x) != Obstacle(s, y)
  {
    hide Prepared, Stalled, Inv, Obstacle;
    StalledInv(p, s, parked, held);
    ObstacleFacts(p, s, parked, held, x);
    ObstacleFacts(p, s, parked, held, y);
    DistinctTasks(p, s, x, y);
    if s.jobs[x].Releasing? { OneReleaser(p, s, Obstacle(s, x), x, y); }
  }

  /** `i` busy workers are stuck on `i` different nodes. */
  lemma {:induction false} Obstacles(p: Plan, s: State, parked: set<Key>, held: set<Key>, i: nat) returns (o: set<Key>)
    requires Prepared(p) && Stalled(p, s, parked, held) && (forall h | h in held :: h in p.list)
    requires i <= |s.jobs| && forall w | 0 <= w < i :: !s.jobs[w].Idle?
    ensures |o| == i && o <= parked + held
    ensures forall w: nat | w < i :: (s.jobs[w].Releasing? ==> s.jobs[w].todo != {})
    ensures forall k | k in o :: exists w: nat :: w < i && (s.jobs[w].Releasing? ==> s.jobs[w].todo != {}) && k == Obstacle(s, w)
  {
    hide Prepared, Stalled, Inv, Obstacle;
    o := {};
    if i > 0 {
      var rest := Obstacles(p, s, parked, held, i - 1);
      ObstacleFacts(p, s, parked, held, i - 1);
      var k := Obstacle(s, i - 1);
      if k in rest {
        var w: nat :| w < i - 1 && k == Obstacle(s, w);
        OwnObstacle(p, s, parked, held, w, i - 1);
      }
      o := rest + {k};
    }
  }

  lemma DisjointCard<T>(a: set<T>, b: set<T>)
    requires a !! b
    ensures |a + b| == |a| + |b|
  {}

  /** Some worker rests, and so the queue is empty. */
  lemma SomeIdle(p: Plan, s: State, parked: set<Key>, held: set<Key>) returns (w: nat)
    requires Prepared(p) && Stalled(p, s, parked, held) && (forall h | h in held :: h in p.list)
    ensures w < |s.jobs| && s.jobs[w].Idle? && s.queue == []
  {
    hide Prepared, Stalled, Inv, Obstacle;
    StalledInv(p, s, parked, held);
    if forall x: nat | x < |s.jobs| :: !s.jobs[x].Idle? {
      DisjointCard(parked, held);
      var o := Obstacles(p, s, parked, held, |s.jobs|);
      SubsetCard(o, parked + held);
      assert false;
    }
    w :| w < |s.jobs| && s.jobs[w].Idle?;
    if s.queue != [] { CannotStep(p, s, parked, held, Take(w)); }
  }

  /** The worker that still has to count `x` down for an ended `q`. */
  lemma PendingWorker(p: Plan, s: State, q: Key, x: Key) returns (w: nat)
    requires Inv(p, s) && q in s.ended && q in p.out && x in p.out[q] && (q, x) !in s.released
    ensures w < |s.jobs| && s.jobs[w].Releasing? && s.jobs[w].task == q && x in s.jobs[w].todo
  {
    hide Counters, History, Listed, Queued, Tinted, Scope, Logged, GreysFirst;
    assert Busy(s.jobs, q);
    w :| 0 <= w < |s.jobs| && !s.jobs[w].Idle? && s.jobs[w].task == q;
    assert JobOk(p, s.jobs[w], s.begun, s.ended, s.released);
  }

  lemma RunningWorker(p: Plan, s: State, x: Key) returns (w: nat)
    requires Inv(p, s) && x in s.begun && x !in s.ended
    ensures w < |s.jobs| && s.jobs[w] == Running(x)
  {
    hide Counters, History, Listed, Queued, Tinted, Scope, Logged, GreysFirst;
    assert Busy(s.jobs, x);
    w :| 0 <= w < |s.jobs| && !s.jobs[w].Idle? && s.jobs[w].task == x;
    assert JobOk(p, s.jobs[w], s.begun, s.ended, s.released);
  }

  /** A node that is not held and whose prerequisites have ended has been counted down by all of them. */
  lemma AllReleased(p: Plan, s: State, parked: set<Key>, held: set<Key>, x: Key)
    requires Prepared(p) && Stalled(p, s, parked, held) && x in p.list && x !in held
    ensures Stale(p, x) * s.ended <= Freed(p, s.released, x)
  {
    StalledInv(p, s, parked, held);
    hide Prepared, Stalled, Inv;
    forall q | q in Stale(p, x) && q in s.ended ensures q in Freed(p, s.released, x) {
      if (q, x) !in s.released {
        var w := PendingWorker(p, s, q, x);
        WorkerStuck(p, s, parked, held, w);
      }
    }
  }

  lemma CountedOut(p: Plan, s: State, x: Key)
    requires Prepared(p) && Inv(p, s) && x in p.list && Stale(p, x) <= Freed(p, s.released, x)
    ensures Ready(p, s.wait, x)
  {
    hide Prepared, Inv, Stale, Freed;
    ListedInOrder(p);
    CounterMeaning(p, s, x);
    CounterValue(p, s, x);
    InitialCounter(p, x);
    FineInvariant.ListedNotWhite(p, x);
    assert Stale(p, x) - Freed(p, s.released, x) == {};
    if p.colour[x] == Black { BlackHasStale(p, x); }
  }

  /** When nothing more is allowed, a node that is not held and whose prerequisites have ended is
      ready, and has ended unless it is parked. */
  lemma HasEnded(p: Plan, s: State, parked: set<Key>, held: set<Key>, x: Key)
    requires Prepared(p) && Stalled(p, s, parked, held) && (forall h | h in held :: h in p.list)
    requires x in p.list && x !in held && Stale(p, x) <= s.ended
    ensures Ready(p, s.wait, x) && (x !in parked ==> x in s.ended)
  {
    hide Prepared, Stalled, Inv, Stale, Freed, Enabled;
    StalledInv(p, s, parked, held);
    AllReleased(p, s, parked, held, x);
    assert Stale(p, x) * s.ended == Stale(p, x);
    CountedOut(p, s, x);
    if x !in parked && x !in s.ended {
      var w := SomeIdle(p, s, parked, held);
      if x in s.begun {
        var y := RunningWorker(p, s, x);
        WorkerStuck(p, s, parked, held, y);
      } else if x in s.sent {
        SentQueued(p, s, x);
      } else {
        ListedInOrder(p);
        ReadyHead(p, s, x);
        CannotDispatch(p, s, parked, held);
      }
    }
  }

  lemma CannotDispatch(p: Plan, s: State, parked: set<Key>, held: set<Key>)
    requires Stalled(p, s, parked, held)
    ensures !Enabled(p, s, Dispatch)
    ensures s.list == [] || s.list[0] !in s.colour || s.colour[s.list[0]] == Black
  {
    StalledInv(p, s, parked, held);
    CannotStep(p, s, parked, held, Dispatch);
    hide Stalled, Inv;
  }

  /** What is still to end waits for a parked or held node, through BLACK nodes before it in the list. */
  lemma {:induction false} Chain(p: Plan, s: State, parked: set<Key>, held: set<Key>, x: Key, i: nat) returns (z: Key, r: Key)
    requires Prepared(p) && Stalled(p, s, parked, held) && (forall h | h in held :: h in p.list)
    requires i < |p.order| && p.order[i] == x && x in p.list && x !in s.ended && x !in parked && x !in held
    ensures x in p.colour && p.colour[x] == Black && FineInvariant.UpTo(p, z, x)
    ensures r in Stale(p, z) && r in parked + held
    decreases i
  {
    hide Prepared, Stalled, Inv, Stale;
    if Stale(p, x) <= s.ended { HasEnded(p, s, parked, held, x); }
    var q :| q in Stale(p, x) && q !in s.ended;
    StaleBefore(p, q, x);
    ListOnce(p);
    if q in parked + held {
      z, r := x, q;
    } else {
      var j, k :| 0 <= j < k < |p.order| && p.order[j] == q && p.order[k] == x;
      assert k == i by { hide Domains, BlacksInOrder; }
      z, r := Chain(p, s, parked, held, q, j);
      if z != q { BeforeTrans(p.list, z, q, x); }
    }
  }

  // ---------- the first held node ----------

  /** `u` is the first held node in the list, and no BLACK node up to it waits for a parked one. */
  ghost predicate FirstHeld(p: Plan, parked: set<Key>, held: set<Key>, u: Key) {
    && u in held
    && (forall h | h in held :: h in p.list && h in p.colour && p.colour[h] == Black && (h == u || Before(p.list, u, h)))
    && (forall y | FineInvariant.UpTo(p, y, u) :: Stale(p, y) !! parked)
  }

  lemma FirstHeldFacts(p: Plan, parked: set<Key>, held: set<Key>, u: Key)
    requires Prepared(p) && FirstHeld(p, parked, held, u)
    ensures u in p.list && u in p.colour && p.colour[u] == Black && FineInvariant.UpTo(p, u, u) && u in p.out && u in held
    ensures forall h | h in held :: h in p.list
  {
    ListedInOrder(p);
    hide Prepared, Stale, Before;
  }

  lemma NotHeld(p: Plan, parked: set<Key>, held: set<Key>, u: Key, z: Key, h: Key)
    requires Prepared(p) && FirstHeld(p, parked, held, u) && FineInvariant.UpTo(p, z, u) && h in parked + held
    ensures h !in Stale(p, z)
  {
    hide Prepared, Stale, Before;
    if h in held { NotAfter(p, u, h, z); }
  }

  /** Everything that BLACK nodes up to the first held node wait for has ended. */
  lemma UpToEnded(p: Plan, s: State, parked: set<Key>, held: set<Key>, u: Key, y: Key)
    requires Prepared(p) && FirstHeld(p, parked, held, u) && Stalled(p, s, parked, held) && FineInvariant.UpTo(p, y, u)
    ensures Stale(p, y) <= s.ended
  {
    hide Prepared, Stalled, Stale, FirstHeld, Before;
    FirstHeldFacts(p, parked, held, u);
    forall q | q in Stale(p, y) && q !in s.ended ensures false {
      StaleBefore(p, q, y);
      if q in parked + held { NotHeld(p, parked, held, u, y, q); }
      InOrder(p, q);
      var i: nat :| i < |p.order| && p.order[i] == q;
      var z, r := Chain(p, s, parked, held, q, i);
      UpToTrans(p, z, q, y);
      if y != u { UpToTrans2(p, z, y, u); }
      NotHeld(p, parked, held, u, z, r);
    }
  }

  /** Then the list begins with `u`, its other nodes are BLACK, and a worker is about to count `u` to zero. */
  lemma HeldIsExposed(p: Plan, s: State, f: Fine, parked: set<Key>, held: set<Key>, u: Key) returns (w: nat)
    requires Prepared(p) && FirstHeld(p, parked, held, u) && Stalled(p, s, parked, held)
    requires FineInvariant.FineInv(p, f) && Match(p, s, f)
    ensures w < |s.jobs| && Enabled(p, s, Release(w, u)) && s.wait[u] == 1 && Exposed(p, f, w, u)
  {
    hide Prepared, Stalled, Stale, FirstHeld, FineInvariant.FineInv, Match, Inv, Enabled, Before, Freed;
    FirstHeldFacts(p, parked, held, u);
    StalledInv(p, s, parked, held);
    UpToEnded(p, s, parked, held, u, u);
    w := HeldReleaser(p, s, parked, held, u);
    WorkerCan(p, s, w);
    WorkerStuck(p, s, parked, held, w);
    CannotDispatch(p, s, parked, held);
    assert Enabled(p, s, Release(w, u));
    FineShaped(p, f);
    CriticalIsPoised(p, s, f, w, u);
    HeldUnready(p, s, u);
    ListShape(p, s, f, parked, held, u);
    MatchLists(p, s, f);
    UnreadyUnsent(p, f, u);
    FineNoDup(p, f);
  }

  lemma FineNoDup(p: Plan, f: Fine)
    requires FineInvariant.FineInv(p, f)
    ensures NoDup(f.list) && FineInvariant.Ordered(p, f.list, f.moved)
  {
    hide FineInvariant.Counted, FineInvariant.Ordered, FineInvariant.Passed, FineInvariant.Shaded, FineInvariant.Zeroed,
         FineInvariant.Waiting, FineInvariant.Chronicled, FineInvariant.Working, FineInvariant.Carried, FineInvariant.Sendings,
         FineInvariant.Untouched;
  }

  lemma MatchLists(p: Plan, s: State, f: Fine)
    requires Match(p, s, f)
    ensures f.list == s.list && f.wait == s.wait && f.colour == s.colour
  {}

  lemma HeldUnready(p: Plan, s: State, u: Key)
    requires Prepared(p) && Inv(p, s) && u in p.list && u in p.colour && p.colour[u] == Black && u in s.wait && s.wait[u] == 1
    ensures !Ready(p, s.wait, u) && u in s.list && u in s.colour && s.colour[u] == Black
  {
    hide Topological, BlacksInOrder, Counters, Queued, Jobs, Scope, Logged, GreysFirst, NoDup, Stale, Counts;
  }

  /** Some worker has still to count the held node down. */
  lemma HeldReleaser(p: Plan, s: State, parked: set<Key>, held: set<Key>, u: Key) returns (w: nat)
    requires Prepared(p) && Stalled(p, s, parked, held) && u in held
    requires u in p.list && u in p.out && u in p.colour && p.colour[u] == Black
    requires Stale(p, u) <= s.ended
    ensures w < |s.jobs| && s.jobs[w].Releasing? && u in s.jobs[w].todo
  {
    hide Prepared, Stalled, Inv, Freed;
    StalledInv(p, s, parked, held);
    ListedInOrder(p);
    CounterMeaning(p, s, u);
    assert Stale(p, u) - Freed(p, s.released, u) != {};
    var q :| q in Stale(p, u) - Freed(p, s.released, u);
    NotFreed(p, s, q, u);
    w := PendingWorker(p, s, q, u);
  }

  lemma NotFreed(p: Plan, s: State, q: Key, u: Key)
    requires q in p.out && q !in Freed(p, s.released, u)
    ensures (q, u) !in s.released
  {}

  lemma ListShape(p: Plan, s: State, f: Fine, parked: set<Key>, held: set<Key>, u: Key)
    requires Prepared(p) && FirstHeld(p, parked, held, u) && Stalled(p, s, parked, held) && FineInvariant.FineInv(p, f) && Match(p, s, f)
    requires u in s.list && u in s.colour && s.colour[u] == Black && !Ready(p, s.wait, u)
    ensures s.list != [] && s.list[0] == u && forall x | x in s.list :: x in s.colour && s.colour[x] == Black
  {
    hide Prepared, Stalled, Stale, FirstHeld, FineInvariant.FineInv, Match, Inv, Enabled, Before, Ready;
    FirstHeldFacts(p, parked, held, u);
    StalledInv(p, s, parked, held);
    CannotDispatch(p, s, parked, held);
    AllBlack(p, s);
    var h := s.list[0];
    if h != u {
      assert h in s.list;
      BlackFacts(p, s, h);
      MatchLists(p, s, f);
      UnreadyUnsent(p, f, h);
      UnreadyUnsent(p, f, u);
      FineNoDup(p, f);
      var j :| 0 <= j < |s.list| && s.list[j] == u;
      assert Before(p.list, h, u);
      UpToEnded(p, s, parked, held, u, h);
      if h in held { NotFirst(p, parked, held, u, h); }
      HasEnded(p, s, parked, held, h);
    }
  }

  lemma NotFirst(p: Plan, parked: set<Key>, held: set<Key>, u: Key, h: Key)
    requires Prepared(p) && FirstHeld(p, parked, held, u) && h in held
    ensures !Before(p.list, h, u)
  {
    hide Prepared, Stale, Before;
    ListOnce(p);
    if h == u { BeforeSelf(p.list, u); }
    if h != u { FineInvariant.BeforeIsStrict(p.list, u, h); }
  }

  lemma AllBlack(p: Plan, s: State)
    requires Inv(p, s) && s.list != [] && (s.list[0] in s.colour ==> s.colour[s.list[0]] == Black)
    ensures forall x | x in s.list :: x in s.colour && s.colour[x] == Black
  {
    hide Counters, History, Listed, Queued, Tinted, Jobs, Scope, Logged;
  }
}
