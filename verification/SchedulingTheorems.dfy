/** What the invariant gives: safety, exactly-once, termination, progress and
    independence of the interleaving and of the number of workers. */
module SchedulingTheorems {
  import opened Colours
  import opened Lists
  import opened Scheduling
  import opened SchedulingInvariant

  // ---------- safety ----------

  lemma {:induction false} EventsOfLog(log: seq<Event>, k: Key)
    ensures Began(k) in log <==> k in Begun(log)
    ensures Ended(k) in log <==> k in Finished(log)
  {
    if log != [] {
      EventsOfLog(log[..|log| - 1], k);
      assert log == log[..|log| - 1] + [log[|log| - 1]];
    }
  }

  lemma {:induction false} OrderlyPrefix(p: Plan, log: seq<Event>, i: nat)
    requires Orderly(p, log) && i <= |log|
    ensures Orderly(p, log[..i])
  {
    if i == |log| {
      assert log[..i] == log;
    } else {
      OrderlyPrefix(p, log[..|log| - 1], i);
      assert log[..|log| - 1][..i] == log[..i];
    }
  }

  lemma LogIsOrderly(p: Plan, n: nat, steps: seq<Step>)
    requires Prepared(p) && After(p, n, steps).Legal?
    ensures Orderly(p, After(p, n, steps).state.log)
  {
    hide Prepared, Orderly, Counters, Listed, Queued, Tinted, GreysFirst, Jobs, Scope;
    Always(p, n, steps);
  }

  lemma OrderlyAt(p: Plan, log: seq<Event>, i: nat)
    requires Orderly(p, log) && i < |log|
    ensures log[i].Began? ==> log[i].key !in Begun(log[..i])
    ensures log[i].Began? && log[i].key in p.list ==> Stale(p, log[i].key) <= Finished(log[..i])
    ensures log[i].Ended? ==> log[i].key in Begun(log[..i]) && log[i].key !in Finished(log[..i])
  {
    OrderlyPrefix(p, log, i + 1);
    assert log[..i + 1][..i] == log[..i];
    hide Stale, Begun, Finished;
  }

  lemma EndedBefore(p: Plan, log: seq<Event>, i: nat, q: Key)
    requires Orderly(p, log) && i <= |log| && q in Finished(log[..i])
    ensures exists b, e :: 0 <= b < e < i && log[b] == Began(q) && log[e] == Ended(q)
  {
    hide Orderly, Begun, Finished, Stale;
    EventsOfLog(log[..i], q);
    var e :| 0 <= e < i && log[..i][e] == Ended(q);
    OrderlyAt(p, log, e);
    EventsOfLog(log[..e], q);
    var b :| 0 <= b < e && log[..e][b] == Began(q);
    assert log[b] == Began(q) && log[e] == Ended(q);
  }

  /** In every interleaving, when an outdated node's recipe starts, each of its outdated
      prerequisites has already started and finished. */
  lemma NoRecipeStartsEarly(p: Plan, n: nat, steps: seq<Step>, i: nat, q: Key)
    requires Prepared(p) && After(p, n, steps).Legal?
    requires i < |After(p, n, steps).state.log| && After(p, n, steps).state.log[i].Began?
    requires After(p, n, steps).state.log[i].key in p.list
    requires q in Stale(p, After(p, n, steps).state.log[i].key)
    ensures exists b, e :: 0 <= b < e < i && After(p, n, steps).state.log[b] == Began(q)
                           && After(p, n, steps).state.log[e] == Ended(q)
  {
    hide Prepared, Orderly, Stale, Begun, Finished;
    LogIsOrderly(p, n, steps);
    hide After;
    OrderlyAt(p, After(p, n, steps).state.log, i);
    EndedBefore(p, After(p, n, steps).state.log, i, q);
  }

  /** In every interleaving the counter of a collected node is the number of its outdated
      prerequisites that have not yet released it, and the ones that have are done.  Only
      an up-to-date source has no counter. */
  lemma CounterInEveryRun(p: Plan, n: nat, steps: seq<Step>, u: Key)
    requires Prepared(p) && After(p, n, steps).Legal? && u in p.order && Counts(p, u)
    ensures var s := After(p, n, steps).state;
            && u in s.wait && s.wait[u] == |Stale(p, u) - Freed(p, s.released, u)|
            && Freed(p, s.released, u) <= Stale(p, u) * s.ended
  {
    Always(p, n, steps);
    CounterMeaning(p, After(p, n, steps).state, u);
    FreedAreStale(p, After(p, n, steps).state, u);
    hide After, Prepared, Counters, Listed, Queued, Tinted, GreysFirst, Jobs, Scope, Logged, Stale, Freed;
  }

  /** No recipe is started twice or finished twice. */
  lemma NothingRunsTwice(p: Plan, n: nat, steps: seq<Step>)
    requires Prepared(p) && After(p, n, steps).Legal?
    ensures NoDup(After(p, n, steps).state.log)
  {
    hide Prepared, Orderly, Stale, Begun, Finished;
    LogIsOrderly(p, n, steps);
    hide After;
    var log := After(p, n, steps).state.log;
    forall i, j | 0 <= i < j < |log| ensures log[i] != log[j] {
      OrderlyAt(p, log, j);
      EventsOfLog(log[..j], log[j].key);
      assert log[..j][i] == log[i];
    }
  }

  // ---------- conservation ----------

  ghost function Active(s: State): set<Key> {
    set k | k in s.begun && k !in s.ended
  }

  /** Listed, queued, running and done nodes partition the outdated nodes; the running
      ones are exactly the tasks of the running workers; every waiting node is listed. */
  lemma Conservation(p: Plan, n: nat, steps: seq<Step>)
    requires Prepared(p) && After(p, n, steps).Legal?
    ensures var s := After(p, n, steps).state;
            var l, q, r, d := Elems(s.list) * Elems(p.list), Elems(s.queue) * Elems(p.list),
                              Active(s) * Elems(p.list), s.ended * Elems(p.list);
            && l + q + r + d == Elems(p.list)
            && l !! q && l !! r && l !! d && q !! r && q !! d && r !! d
            && NoDup(s.list) && NoDup(s.queue) && GreysFirst(s.colour, s.list)
            && (forall k :: k in Active(s) <==> Running(k) in s.jobs)
            && (forall u | u in p.out && s.colour[u] == Black :: u in s.list)
            && (forall u | u in s.list :: s.colour[u] != White)
  {
    var s := After(p, n, steps).state;
    Always(p, n, steps);
    RunningTasks(p, s);
    hide After, Topological, Counters, Logged, GreysFirst, NoDup, Jobs, Scope, Ready, Stale;
    forall u | u in p.list
      ensures u in s.list <==> u !in s.sent
      ensures u in s.queue <==> u in s.sent && u !in s.begun
    {
      assert u in p.out && p.colour[u] != White;
    }
  }

  lemma RunningTasks(p: Plan, s: State)
    requires Inv(p, s)
    ensures forall k :: k in Active(s) <==> Running(k) in s.jobs
  {
    hide Counters, Listed, Queued, Tinted, GreysFirst, Logged, Scope;
    forall k | k in Active(s) ensures Running(k) in s.jobs {
      assert Busy(s.jobs, k);
      var w :| 0 <= w < |s.jobs| && !s.jobs[w].Idle? && s.jobs[w].task == k;
      assert JobOk(p, s.jobs[w], s.begun, s.ended, s.released);
      assert s.jobs[w] == Running(k);
    }
    forall k | Running(k) in s.jobs ensures k in Active(s) {
      var w :| 0 <= w < |s.jobs| && s.jobs[w] == Running(k);
      assert JobOk(p, s.jobs[w], s.begun, s.ended, s.released);
    }
  }

  // ---------- termination ----------

  ghost function Edges(p: Plan): set<(Key, Key)> {
    set a, b | a in p.out && b in p.out[a] :: (a, b)
  }

  ghost function Left<T>(all: set<T>, done: set<T>): nat {
    |all - done|
  }

  ghost function Measure(p: Plan, s: State): nat {
    Left(p.out.Keys, s.sent) + Left(p.out.Keys, s.begun) + Left(p.out.Keys, s.ended) + Left(Edges(p), s.released)
    + (if s.finish then 0 else 1) + (if s.aborted then 0 else 1)
  }

  lemma DropsOne<T>(all: set<T>, done: set<T>, x: T)
    requires x in all && x !in done
    ensures Left(all, done + {x}) == Left(all, done) - 1
  {
    assert all - done == (all - (done + {x})) + {x};
  }

  lemma StepDecreases(p: Plan, s: State, step: Step)
    requires Inv(p, s) && Enabled(p, s, step)
    ensures Measure(p, Next(p, s, step)) == Measure(p, s) - 1
  {
    hide Counters, Tinted, GreysFirst, Logged, Scope, Busy, NoDup, Edges, Domains, Listed, Jobs, JobOk, Queued, Left;
    match step
    case Dispatch => DispatchFacts(p, s); DropsOne(p.out.Keys, s.sent, s.list[0]);
    case Quit =>
    case Take(w) => TakeQueue(s.queue, s.sent, s.begun); DropsOne(p.out.Keys, s.begun, s.queue[0]);
    case Complete(w) => hide History; WorkerFacts(p, s, w); DropsOne(p.out.Keys, s.ended, s.jobs[w].task);
    case Fail(w) =>
    case Release(w, u) => hide History; WorkerFacts(p, s, w); DropsOne(Edges(p), s.released, (s.jobs[w].task, u));
  }

  lemma WorkerFacts(p: Plan, s: State, w: nat)
    requires Inv(p, s) && w < |s.jobs|
    ensures s.jobs[w].Running? ==> s.jobs[w].task in p.out && s.jobs[w].task !in s.ended
    ensures s.jobs[w].Releasing? ==> s.jobs[w].task in p.out && s.jobs[w].todo != {} && s.jobs[w].todo <= p.out.Keys
    ensures s.jobs[w].Releasing? ==>
              forall u | u in s.jobs[w].todo :: (s.jobs[w].task, u) in Edges(p) && (s.jobs[w].task, u) !in s.released
  {
    hide Listed, Queued, Tinted, GreysFirst, Logged, Scope, Busy, NoDup, Freed;
    assert JobOk(p, s.jobs[w], s.begun, s.ended, s.released);
    hide Jobs;
  }

  lemma DispatchFacts(p: Plan, s: State)
    requires Inv(p, s) && s.list != []
    ensures s.list[0] in p.out && s.list[0] !in s.sent
  {
    hide Counters, Tinted, GreysFirst, Logged, Scope, Busy, Jobs, Ready, Domains, NoDup;
    assert s.list[0] in s.list;
  }

  lemma {:induction false} StepsPlusMeasure(p: Plan, n: nat, steps: seq<Step>)
    requires Prepared(p) && After(p, n, steps).Legal?
    ensures |steps| + Measure(p, After(p, n, steps).state) == Measure(p, Init(p, n))
  {
    if steps != [] {
      var front := steps[..|steps| - 1];
      StepsPlusMeasure(p, n, front);
      Always(p, n, front);
      hide Inv, Topological, Coloured, Measure, Next;
      StepDecreases(p, After(p, n, front).state, steps[|steps| - 1]);
    }
  }

  /** Every interleaving is finite: at most three stages a node, one step an edge, and two more. */
  lemma RunsAreBounded(p: Plan, n: nat, steps: seq<Step>)
    requires Prepared(p) && After(p, n, steps).Legal?
    ensures |steps| <= 3 * |p.out| + |Edges(p)| + 2
  {
    StepsPlusMeasure(p, n, steps);
    hide Prepared, After;
    assert p.out.Keys - {} == p.out.Keys;
    assert Edges(p) - {} == Edges(p);
    hide Edges;
  }

  // ---------- progress ----------

  lemma IdleMeansReleased(p: Plan, s: State)
    requires Inv(p, s) && forall w | 0 <= w < |s.jobs| :: s.jobs[w].Idle?
    ensures s.begun == s.ended
    ensures forall k, u | k in s.ended && k in p.out && u in p.out[k] :: (k, u) in s.released
  {
    hide Counters, Listed, Queued, Tinted, GreysFirst, Logged, Scope;
    assert forall k :: !Busy(s.jobs, k);
  }

  /** With all workers idle, a node whose outdated prerequisites have ended is ready. */
  lemma EndedPrerequisitesMakeReady(p: Plan, s: State, u: Key)
    requires Prepared(p) && Inv(p, s) && u in p.out && 1 <= p.wait[u] <= |Stale(p, u)| && Stale(p, u) <= s.ended
    requires forall w | 0 <= w < |s.jobs| :: s.jobs[w].Idle?
    ensures Ready(p, s.wait, u)
  {
    IdleMeansReleased(p, s);
    hide Topological, Coloured, Listed, Queued, Tinted, GreysFirst, Logged, Scope, Jobs;
    assert Stale(p, u) <= Freed(p, s.released, u);
    SubsetCard(Stale(p, u), Freed(p, s.released, u));
  }

  /** The first unfinished outdated node, in collection order. */
  lemma FirstUnfinished(p: Plan, s: State, u: Key) returns (v: Key)
    requires Prepared(p) && u in p.list && u !in s.ended
    ensures v in p.list && v !in s.ended && Stale(p, v) <= s.ended
  {
    var i := 0;
    while i < |p.order| && !(p.order[i] in p.list && p.order[i] !in s.ended)
      invariant forall j | 0 <= j < i && j < |p.order| :: p.order[j] in p.list ==> p.order[j] in s.ended
    {
      i := i + 1;
    }
    assert u in p.order;
    v := p.order[i];
    forall q | q in Stale(p, v) ensures q in s.ended {
      assert q in In(p, v);
      assert q in p.order[..i];
    }
  }

  ghost predicate Works(step: Step) {
    !step.Quit? && !step.Fail?
  }

  lemma BusyWorkerCanStep(p: Plan, s: State, w: nat) returns (step: Step)
    requires Inv(p, s) && !s.aborted && w < |s.jobs| && !s.jobs[w].Idle?
    ensures Works(step) && Enabled(p, s, step)
  {
    hide Counters, Listed, Queued, Tinted, GreysFirst, Logged, Scope, Jobs, Edges;
    WorkerFacts(p, s, w);
    if s.jobs[w].Running? {
      step := Complete(w);
    } else {
      var u :| u in s.jobs[w].todo;
      step := Release(w, u);
    }
  }

  lemma ReadyHead(p: Plan, s: State, u: Key)
    requires Inv(p, s) && u in p.out && Ready(p, s.wait, u) && u !in s.sent
    ensures s.list != [] && s.list[0] in s.colour && s.colour[s.list[0]] != Black
    ensures u in s.list
  {
    hide Logged, Scope, Jobs, Queued, NoDup, Domains, GreysFirst;
    GreyHead(s.colour, s.list, u);
  }

  lemma GreyHead<N>(colour: map<N, Colour>, list: seq<N>, u: N)
    requires GreysFirst(colour, list) && u in list && colour[u] != Black
    ensures colour[list[0]] != Black
  {
    var i :| 0 <= i < |list| && list[i] == u;
  }

  /** No deadlock: while some outdated node is unfinished, some step other than quitting is enabled. */
  lemma Progress(p: Plan, s: State, u: Key) returns (step: Step)
    requires Prepared(p) && Inv(p, s) && !s.aborted && |s.jobs| >= 1
    requires u in p.list && u !in s.ended
    ensures Works(step) && Enabled(p, s, step)
  {
    hide Logged, Tinted, GreysFirst, Topological, Jobs, JobOk, Busy, Stale, Freed;
    if w: nat :| w < |s.jobs| && !s.jobs[w].Idle? {
      step := BusyWorkerCanStep(p, s, w);
    } else if s.queue != [] {
      step := Take(0);
    } else {
      IdleMeansReleased(p, s);
      var v := FirstUnfinished(p, s, u);
      if p.colour[v] == Black { EndedPrerequisitesMakeReady(p, s, v); }
      assert v !in s.sent by { assert v !in s.queue; }
      ReadyHead(p, s, v);
      step := Dispatch;
    }
  }

  // ---------- the end of a run ----------

  ghost predicate Stuck(p: Plan, s: State) {
    forall step :: !Enabled(p, s, step)
  }

  /** A run that cannot go on and was not aborted has run every outdated node and left every
      collected node WHITE, the queue empty and the workers idle. */
  lemma Completion(p: Plan, n: nat, steps: seq<Step>)
    requires Prepared(p) && n >= 1
    requires After(p, n, steps).Legal? && !After(p, n, steps).state.aborted && Stuck(p, After(p, n, steps).state)
    ensures var s := After(p, n, steps).state;
            && s.ended * Elems(p.order) == Elems(p.list)
            && (forall u | u in p.order :: s.colour[u] == White)
            && s.queue == [] && (forall w | 0 <= w < |s.jobs| :: s.jobs[w].Idle?) && s.finish
  {
    var s := After(p, n, steps).state;
    Always(p, n, steps);
    hide After;
    forall u | u in p.list ensures u in s.ended {
      if u !in s.ended {
        var step := Progress(p, s, u);
        assert false;
      }
    }
    forall w: nat | w < |s.jobs| ensures s.jobs[w].Idle? {
      if !s.jobs[w].Idle? {
        var step := BusyWorkerCanStep(p, s, w);
        assert false;
      }
    }
    assert !Enabled(p, s, Take(0)) && !Enabled(p, s, Quit) && !Enabled(p, s, Dispatch);
    StuckFinished(p, s);
    AllWhite(p, s);
    CollectedEnded(p, s);
  }

  lemma StuckFinished(p: Plan, s: State)
    requires Prepared(p) && Inv(p, s) && !s.aborted && !Enabled(p, s, Quit) && !Enabled(p, s, Dispatch)
    requires forall u | u in p.list :: u in s.ended
    ensures s.finish
  {
    hide Topological, Counters, Queued, Jobs, Logged, GreysFirst, NoDup, Scope, Stale;
    if s.list != [] {
      var k := s.list[0];
      assert k in p.out && k !in s.sent;
      assert k !in p.list;
      assert p.colour[k] == White;
    }
  }

  lemma AllWhite(p: Plan, s: State)
    requires Prepared(p) && Inv(p, s) && forall u | u in p.list :: u in s.ended
    ensures forall u | u in p.order :: s.colour[u] == White
  {
    hide Topological, Counters, Queued, Jobs, Logged, GreysFirst, NoDup, Stale, Listed;
    forall u | u in p.order ensures s.colour[u] == White {
      if u !in p.list {
        UpToDateNeverReady(p, s, u);
      }
    }
  }

  lemma CollectedEnded(p: Plan, s: State)
    requires Prepared(p) && Inv(p, s) && forall u | u in p.list :: u in s.ended
    ensures s.ended * Elems(p.order) == Elems(p.list)
  {
    hide Topological, Coloured, Counters, Queued, Jobs, Logged, GreysFirst, NoDup, Stale, Listed, Tinted;
  }

  /** The outcome depends neither on the interleaving nor on the number of workers. */
  lemma SameOutcome(p: Plan, m: nat, steps: seq<Step>, n: nat, steps': seq<Step>)
    requires Prepared(p) && m >= 1 && n >= 1
    requires After(p, m, steps).Legal? && !After(p, m, steps).state.aborted && Stuck(p, After(p, m, steps).state)
    requires After(p, n, steps').Legal? && !After(p, n, steps').state.aborted && Stuck(p, After(p, n, steps').state)
    ensures After(p, m, steps).state.ended * Elems(p.order) == After(p, n, steps').state.ended * Elems(p.order)
  {
    Completion(p, m, steps);
    Completion(p, n, steps');
  }

  // ---------- nodes that were never collected ----------

  /** No node outside the collected ones holds a counter that its outdated prerequisites can
      bring to zero.  A caller can check this before the run. */
  ghost predicate Harmless(p: Plan)
    requires Domains(p)
  {
    forall u | u in p.out && u !in p.order :: !(1 <= p.wait[u] <= |Stale(p, u)|)
  }

  /** When every child of an outdated node is collected, all is harmless. */
  lemma CollectedChildrenAreHarmless(p: Plan)
    requires Prepared(p) && forall v, u | v in p.list && v in p.out && u in p.out[v] :: u in p.order
    ensures Harmless(p)
  {
    forall u, v | u in p.out && u !in p.order ensures v !in Stale(p, u) {
    }
    assert forall u | u in p.out && u !in p.order :: Stale(p, u) == {};
  }

  /** A phony target with one child that was never collected and whose counter happens to be 1. */
  ghost function StrayPlan(): Plan {
    Plan(map["all" := {"child"}, "child" := {}], map["all" := Grey, "child" := White],
         map["all" := 0, "child" := 1], ["all"], ["all"], {"child"})
  }

  lemma StrayPlanIsHarmful()
    ensures Prepared(StrayPlan()) && !Harmless(StrayPlan())
    ensures exists steps :: After(StrayPlan(), 1, steps).Legal? && "child" in After(StrayPlan(), 1, steps).state.ended
  {
    var p := StrayPlan();
    assert "child" in p.out["all"] && "all" in p.out;
    assert Stale(p, "child") == {"all"} && In(p, "all") == {} && Stale(p, "all") == {};
    assert p.order[0] == "all";
    var steps := StrayRuns(p, "child");
  }

  lemma HarmlessStray(p: Plan, s: State, u: Key)
    requires Prepared(p) && Inv(p, s) && Harmless(p) && u in p.out && u !in p.order && s.sent <= Elems(p.list)
    ensures !Ready(p, s.wait, u)
  {
    hide Listed, Queued, Tinted, GreysFirst, Logged, Jobs, Topological;
    assert p.colour[u] == White;
    assert Freed(p, s.released, u) <= Stale(p, u);
    SubsetCard(Freed(p, s.released, u), Stale(p, u));
  }

  lemma HarmlessStep(p: Plan, s: State, step: Step)
    requires Prepared(p) && Inv(p, s) && Harmless(p) && Enabled(p, s, step) && s.sent <= Elems(p.list)
    ensures Next(p, s, step).sent <= Elems(p.list)
  {
    hide Topological, Coloured, Counters, Queued, Jobs, Logged, GreysFirst, Harmless, Listed, Tinted;
    if step == Dispatch {
      DispatchLists(p, s.colour, s.wait, s.list, s.queue, s.sent, s.begun, s.ended);
      if s.list[0] !in p.order {
        HarmlessStray(p, s, s.list[0]);
      } else if s.list[0] !in p.list {
        UpToDateNeverReady(p, s, s.list[0]);
      }
    }
  }

  lemma {:induction false} HarmlessSendsOnlyOutdated(p: Plan, n: nat, steps: seq<Step>)
    requires Prepared(p) && Harmless(p) && After(p, n, steps).Legal?
    ensures After(p, n, steps).state.sent <= Elems(p.list)
  {
    hide Inv, Topological, Coloured, Harmless, Next;
    if steps != [] {
      HarmlessSendsOnlyOutdated(p, n, steps[..|steps| - 1]);
      Always(p, n, steps[..|steps| - 1]);
      HarmlessStep(p, After(p, n, steps[..|steps| - 1]).state, steps[|steps| - 1]);
    }
  }

  /** Any run can be continued, without quitting or failing, until no worker and no dispatch can step. */
  lemma {:induction false} Drain(p: Plan, n: nat, steps: seq<Step>) returns (more: seq<Step>)
    requires Prepared(p) && After(p, n, steps).Legal?
    requires !After(p, n, steps).state.aborted && !After(p, n, steps).state.finish
    ensures After(p, n, more).Legal? && !After(p, n, more).state.aborted && !After(p, n, more).state.finish
    ensures forall step | Works(step) :: !Enabled(p, After(p, n, more).state, step)
    decreases Measure(p, After(p, n, steps).state)
  {
    var s := After(p, n, steps).state;
    if step :| Works(step) && Enabled(p, s, step) {
      Always(p, n, steps);
      StepDecreases(p, s, step);
      WorkGoesOn(p, n, steps, step);
      hide Inv, Prepared, Measure, After, Next, Enabled;
      more := Drain(p, n, steps + [step]);
    } else {
      more := steps;
    }
  }

  lemma WorkGoesOn(p: Plan, n: nat, steps: seq<Step>, step: Step)
    requires After(p, n, steps).Legal? && Enabled(p, After(p, n, steps).state, step)
    ensures After(p, n, steps + [step]) == Legal(Next(p, After(p, n, steps).state, step))
    ensures Works(step) ==> var t := Next(p, After(p, n, steps).state, step);
              t.finish == After(p, n, steps).state.finish && t.aborted == After(p, n, steps).state.aborted
  {
    assert (steps + [step])[..|steps|] == steps;
  }

  lemma NoSteps(p: Plan)
    ensures After(p, 1, []).Legal? && !After(p, 1, []).state.aborted && !After(p, 1, []).state.finish
  {}

  /** A harmful stray does run, in some interleaving with a single worker. */
  lemma StrayRuns(p: Plan, u: Key) returns (steps: seq<Step>)
    requires Prepared(p) && u in p.out && u !in p.order && 1 <= p.wait[u] <= |Stale(p, u)|
    ensures After(p, 1, steps).Legal? && u in After(p, 1, steps).state.ended
  {
    hide Prepared, Inv, After, Enabled, Ready;
    NoSteps(p);
    steps := Drain(p, 1, []);
    Always(p, 1, steps);
    var s := After(p, 1, steps).state;
    forall v | v in p.list ensures v in s.ended {
      if v !in s.ended {
        var step := Progress(p, s, v);
        assert false;
      }
    }
    forall w: nat | w < |s.jobs| ensures s.jobs[w].Idle? {
      if !s.jobs[w].Idle? {
        var step := BusyWorkerCanStep(p, s, w);
        assert false;
      }
    }
    EndedPrerequisitesMakeReady(p, s, u);
    DrainedEnded(p, s, u);
  }

  lemma DrainedEnded(p: Plan, s: State, u: Key)
    requires Inv(p, s) && u in p.out && Ready(p, s.wait, u) && !s.aborted && !s.finish && |s.jobs| == 1
    requires forall w | 0 <= w < |s.jobs| :: s.jobs[w].Idle?
    requires !Enabled(p, s, Dispatch) && !Enabled(p, s, Take(0))
    ensures u in s.ended
  {
    hide Inv, Enabled, Ready;
    IdleMeansReleased(p, s);
    if u !in s.sent {
      ReadyHead(p, s, u);
      HeadEnablesDispatch(p, s);
    } else if u !in s.begun {
      SentQueued(p, s, u);
      QueueEnablesTake(p, s);
    }
  }

  lemma HeadEnablesDispatch(p: Plan, s: State)
    requires Inv(p, s) && !s.aborted && !s.finish && s.list != [] && s.list[0] in s.colour && s.colour[s.list[0]] != Black
    ensures Enabled(p, s, Dispatch)
  {
    hide Counters, Listed, Queued, Tinted, GreysFirst, Logged, Jobs, Scope, History;
  }

  lemma QueueEnablesTake(p: Plan, s: State)
    requires Inv(p, s) && !s.aborted && |s.jobs| == 1 && s.jobs[0].Idle? && s.queue != []
    ensures Enabled(p, s, Take(0))
  {
    hide Counters, Listed, Queued, Tinted, GreysFirst, Logged, Jobs, Scope, History;
  }

  lemma SentQueued(p: Plan, s: State, x: Key)
    requires Inv(p, s) && x in s.sent && x !in s.begun
    ensures x in s.queue
  {
    hide Counters, History, Listed, Jobs, Tinted, Scope, Logged, GreysFirst, NoDup;
  }

  /** Only outdated nodes ever start, in every interleaving with any number of workers, exactly
      when the uncollected nodes are harmless. */
  lemma OnlyOutdatedRun(p: Plan)
    requires Prepared(p)
    ensures Harmless(p) <==>
            forall n, steps | After(p, n, steps).Legal? :: After(p, n, steps).state.begun <= Elems(p.list)
  {
    if Harmless(p) {
      forall n, steps | After(p, n, steps).Legal?
        ensures After(p, n, steps).state.begun <= Elems(p.list)
      {
        HarmlessSendsOnlyOutdated(p, n, steps);
        Always(p, n, steps);
      }
    } else {
      var u :| u in p.out && u !in p.order && 1 <= p.wait[u] <= |Stale(p, u)|;
      var steps := StrayRuns(p, u);
      Always(p, 1, steps);
      hide Topological, Coloured, After, Counters, Listed, Queued, Tinted, GreysFirst, Logged, Jobs, Scope, Harmless, Stale;
      assert u in After(p, 1, steps).state.begun && u !in Elems(p.list);
    }
  }

  // ---------- a target collected twice ----------

  /** One phony target that was added twice, and so stands in the list twice. */
  ghost function RepeatedPlan(): Plan {
    Plan(map["all" := {}], map["all" := Grey], map["all" := 0], ["all", "all"], ["all", "all"], {"all"})
  }

  ghost function RepeatedSteps(): seq<Step> {
    [Dispatch] + [Dispatch] + [Take(0)] + [Complete(0)] + [Take(0)]
  }

  lemma BothQueued()
    ensures After(RepeatedPlan(), 1, [Dispatch] + [Dispatch]) ==
            Legal(Init(RepeatedPlan(), 1).(list := [], queue := ["all", "all"], sent := {"all"}))
  {
    var p, s := RepeatedPlan(), Init(RepeatedPlan(), 1);
    WorkGoesOn(p, 1, [], Dispatch);
    assert [] + [Dispatch] == [Dispatch];
    assert s.list[1..] == ["all"] && s.queue + ["all"] == ["all"];
    WorkGoesOn(p, 1, [Dispatch], Dispatch);
    assert ["all"][1..] == [] && ["all"] + ["all"] == ["all", "all"];
  }

  /** Its recipe runs twice: the list must not repeat a key. */
  lemma RepeatedRunsTwice()
    ensures !NoDup(RepeatedPlan().list) && After(RepeatedPlan(), 1, RepeatedSteps()).Legal?
    ensures After(RepeatedPlan(), 1, RepeatedSteps()).state.log == [Began("all"), Ended("all"), Began("all")]
  {
    var p, front := RepeatedPlan(), [Dispatch] + [Dispatch];
    assert p.list[0] == p.list[1];
    BothQueued();
    hide After;
    var s := After(p, 1, front).state;
    WorkGoesOn(p, 1, front, Take(0));
    var t := Next(p, s, Take(0));
    assert t.queue == ["all"] && t.jobs[0] == Running("all") && t.log == [Began("all")];
    WorkGoesOn(p, 1, front + [Take(0)], Complete(0));
    var u := Next(p, t, Complete(0));
    assert u.jobs[0] == Idle && u.queue == ["all"] && u.log == [Began("all"), Ended("all")];
    WorkGoesOn(p, 1, front + [Take(0)] + [Complete(0)], Take(0));
  }

  // ---------- a failing recipe ----------

  lemma {:induction false} PrefixLegal(p: Plan, n: nat, steps: seq<Step>, i: nat)
    requires After(p, n, steps).Legal? && i <= |steps|
    ensures After(p, n, steps[..i]).Legal?
    ensures i < |steps| ==> Enabled(p, After(p, n, steps[..i]).state, steps[i])
  {
    hide Enabled, Next;
    if i == |steps| {
      assert steps[..i] == steps;
    } else if i < |steps| - 1 {
      PrefixLegal(p, n, steps[..|steps| - 1], i);
      assert steps[..|steps| - 1][..i] == steps[..i];
    }
  }

  lemma {:induction false} AbortedAtFail(p: Plan, n: nat, steps: seq<Step>)
    requires After(p, n, steps).Legal?
    ensures After(p, n, steps).state.aborted <==> steps != [] && steps[|steps| - 1].Fail?
  {
    if steps != [] {
      AbortedAtFail(p, n, steps[..|steps| - 1]);
      hide Remove, AfterRelease;
    }
  }

  /** Nothing happens after a recipe has failed, and its failure is not logged as its end; only a node
      that has a recipe, and that had started, can fail. */
  lemma FailEndsRun(p: Plan, n: nat, steps: seq<Step>, i: nat)
    requires After(p, n, steps).Legal? && i < |steps| && steps[i].Fail?
    ensures i == |steps| - 1 && After(p, n, steps[..i]).Legal?
    ensures After(p, n, steps).state.log == After(p, n, steps[..i]).state.log
    ensures var s, w := After(p, n, steps[..i]).state, steps[i].worker;
            w < n && s.jobs[w].Running? && s.jobs[w].task in p.recipes
  {
    PrefixLegal(p, n, steps, i);
    if i < |steps| - 1 {
      PrefixLegal(p, n, steps, i + 1);
      AbortedAtFail(p, n, steps[..i + 1]);
    }
  }

  /** Any recipe may fail while it runs. */
  lemma AnyRecipeMayFail(p: Plan, n: nat, steps: seq<Step>, w: nat)
    requires Prepared(p) && After(p, n, steps).Legal? && (steps == [] || !steps[|steps| - 1].Fail?)
    requires w < n && After(p, n, steps).state.jobs[w].Running? && After(p, n, steps).state.jobs[w].task in p.recipes
    ensures After(p, n, steps + [Fail(w)]).Legal?
  {
    AbortedAtFail(p, n, steps);
    assert (steps + [Fail(w)])[..|steps|] == steps;
    hide Next, Topological, Coloured, BlacksInOrder;
  }
}
