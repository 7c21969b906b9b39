/** The invariant of the scheduling stage, kept by every step of every interleaving. */
module SchedulingInvariant {
  import opened Colours
  import opened Lists
  import opened Scheduling

  /** The prerequisites of `u` that have already counted `u` down. */
  ghost function Freed(p: Plan, released: set<(Key, Key)>, u: Key): set<Key> {
    set a | a in p.out && (a, u) in released
  }

  ghost predicate Keyed(p: Plan, wait: map<Key, int>) {
    Domains(p) && wait.Keys == p.out.Keys
  }

  /** `u` may run: it was GREY from the start, or its positive counter has reached zero. */
  ghost predicate Ready(p: Plan, wait: map<Key, int>, u: Key) {
    u in p.colour && u in p.wait && u in wait && (p.colour[u] == Grey || (p.wait[u] >= 1 && wait[u] <= 0))
  }

  /** A counter is its initial value less the number of prerequisites that released the node. */
  ghost predicate Counters(p: Plan, wait: map<Key, int>, released: set<(Key, Key)>, ended: set<Key>) {
    && Keyed(p, wait)
    && (forall u | u in p.out :: wait[u] == p.wait[u] - |Freed(p, released, u)|)
    && (forall a, b | (a, b) in released :: a in ended && a in p.out && b in p.out[a])
  }

  ghost predicate History(p: Plan, sent: set<Key>, begun: set<Key>, ended: set<Key>) {
    ended <= begun <= sent <= p.out.Keys
  }

  /** The list holds the nodes not yet sent that are ready or still waiting. */
  ghost predicate Listed(p: Plan, wait: map<Key, int>, list: seq<Key>, sent: set<Key>) {
    && Keyed(p, wait) && NoDup(list)
    && (forall u | u in list :: u in p.out)
    && (forall u | u in p.out :: u in list <==> u !in sent && (Ready(p, wait, u) || p.colour[u] == Black))
    && (forall u | u in sent && u in p.out :: Ready(p, wait, u))
  }

  ghost predicate Queued(queue: seq<Key>, sent: set<Key>, begun: set<Key>) {
    NoDup(queue) && forall u :: u in queue <==> u in sent && u !in begun
  }

  ghost predicate Tinted(p: Plan, colour: map<Key, Colour>, wait: map<Key, int>, ended: set<Key>) {
    && Keyed(p, wait) && colour.Keys == p.out.Keys
    && forall u | u in p.out ::
         colour[u] == if u in ended then White else if Ready(p, wait, u) then Grey else p.colour[u]
  }

  ghost predicate JobOk(p: Plan, job: Job, begun: set<Key>, ended: set<Key>, released: set<(Key, Key)>) {
    match job
    case Idle => true
    case Running(k) => k in begun && k !in ended
    case Releasing(k, todo) =>
      && k in ended && k in p.out && todo != {}
      && forall u :: u in todo <==> u in p.out[k] && (k, u) !in released
  }

  ghost predicate Busy(jobs: seq<Job>, k: Key) {
    exists w | 0 <= w < |jobs| :: !jobs[w].Idle? && jobs[w].task == k
  }

  /** Every node begun and not ended, or ended and not done releasing, is the task of exactly one worker. */
  ghost predicate Jobs(p: Plan, jobs: seq<Job>, begun: set<Key>, ended: set<Key>, released: set<(Key, Key)>) {
    && (forall w | 0 <= w < |jobs| :: JobOk(p, jobs[w], begun, ended, released))
    && (forall v, w | 0 <= v < w < |jobs| && !jobs[v].Idle? && !jobs[w].Idle? :: jobs[v].task != jobs[w].task)
    && (forall k | k in begun && k !in ended :: Busy(jobs, k))
    && (forall k, u | k in ended && k in p.out && u in p.out[k] && (k, u) !in released :: Busy(jobs, k))
  }

  /** Collected nodes are sent only if outdated; after the master quits no outdated node is left in the list. */
  ghost predicate Scope(p: Plan, sent: set<Key>, list: seq<Key>, finish: bool) {
    && (forall u | u in sent && u in p.order :: u in p.list)
    && (finish ==> forall u | u in list :: u !in p.list)
  }

  ghost function Begun(log: seq<Event>): set<Key> {
    if log == [] then {}
    else var e := log[|log| - 1]; Begun(log[..|log| - 1]) + if e.Began? then {e.key} else {}
  }

  ghost function Finished(log: seq<Event>): set<Key> {
    if log == [] then {}
    else var e := log[|log| - 1]; Finished(log[..|log| - 1]) + if e.Ended? then {e.key} else {}
  }

  /** Nothing begins twice or ends twice or ends before it began, and every outdated node
      begins after all its outdated prerequisites have ended. */
  ghost predicate Orderly(p: Plan, log: seq<Event>) {
    log == [] ||
    var front, e := log[..|log| - 1], log[|log| - 1];
    && Orderly(p, front)
    && (e.Began? ==> e.key !in Begun(front) && (e.key in p.list ==> Stale(p, e.key) <= Finished(front)))
    && (e.Ended? ==> e.key in Begun(front) && e.key !in Finished(front))
  }

  ghost predicate Logged(p: Plan, log: seq<Event>, begun: set<Key>, ended: set<Key>) {
    Orderly(p, log) && begun == Begun(log) && ended == Finished(log)
  }

  ghost predicate Inv(p: Plan, s: State) {
    && Typed(p, s)
    && Counters(p, s.wait, s.released, s.ended)
    && History(p, s.sent, s.begun, s.ended)
    && Listed(p, s.wait, s.list, s.sent)
    && Queued(s.queue, s.sent, s.begun)
    && Tinted(p, s.colour, s.wait, s.ended) && GreysFirst(s.colour, s.list)
    && Jobs(p, s.jobs, s.begun, s.ended, s.released)
    && Scope(p, s.sent, s.list, s.finish)
    && Logged(p, s.log, s.begun, s.ended)
  }

  lemma InitInv(p: Plan, n: nat)
    requires Prepared(p)
    ensures Inv(p, Init(p, n))
  {
    hide Prepared, Listed, Counters, Tinted, GreysFirst, NoDup, Jobs, Queued, Logged;
    InitParts(p);
    InitRest(p, n);
  }

  lemma InitRest(p: Plan, n: nat)
    ensures Jobs(p, Init(p, n).jobs, {}, {}, {}) && Queued([], {}, {}) && Logged(p, [], {}, {})
  {
    assert forall k :: !Busy(Init(p, n).jobs, k);
  }

  lemma InitParts(p: Plan)
    requires Prepared(p)
    ensures Listed(p, p.wait, p.list, {}) && Counters(p, p.wait, {}, {})
    ensures Tinted(p, p.colour, p.wait, {}) && GreysFirst(p.colour, p.list) && p.colour.Keys == p.wait.Keys == p.out.Keys
  {
    hide Topological, Stale;
    forall u ensures Freed(p, {}, u) == {} {}
  }

  lemma SubsetCard<T>(a: set<T>, b: set<T>)
    requires a <= b
    ensures |a| <= |b|
    ensures |a| == |b| ==> a == b
  {
    assert b == a + (b - a);
  }

  /** Only outdated prerequisites ever count a collected node down. */
  lemma FreedAreStale(p: Plan, s: State, u: Key)
    requires Prepared(p) && Inv(p, s) && u in p.order
    ensures Freed(p, s.released, u) <= Stale(p, u)
    ensures |Freed(p, s.released, u)| <= |Stale(p, u)|
    ensures Freed(p, s.released, u) <= s.ended
  {
    hide Coloured, Listed, Queued, Tinted, Jobs, Logged, GreysFirst, NoDup;
    var i :| 0 <= i < |p.order| && p.order[i] == u;
    forall a | a in Freed(p, s.released, u) ensures a in Stale(p, u) {
      assert a in In(p, u);
      assert a in p.order[..i];
    }
    SubsetCard(Freed(p, s.released, u), Stale(p, u));
  }

  /** The counter of a collected node, where it is set, is the number of outdated
      prerequisites yet to release the node. */
  lemma CounterMeaning(p: Plan, s: State, u: Key)
    requires Prepared(p) && Inv(p, s) && u in p.order && Counts(p, u)
    ensures s.wait[u] == |Stale(p, u) - Freed(p, s.released, u)|
  {
    FreedAreStale(p, s, u);
    InitialCounter(p, u);
    CounterValue(p, s, u);
    hide Prepared, Inv, Stale, Freed;
    CardOfRest(Freed(p, s.released, u), Stale(p, u));
  }

  lemma InitialCounter(p: Plan, u: Key)
    requires Prepared(p) && u in p.order && Counts(p, u)
    ensures u in p.wait && p.wait[u] == |Stale(p, u)|
  {
    hide Topological, Stale, BlacksInOrder, Counts;
  }

  lemma BlackHasStale(p: Plan, x: Key)
    requires Prepared(p) && x in p.list && x in p.colour && p.colour[x] == Black
    ensures Stale(p, x) != {} && |Stale(p, x)| >= 1
  {
    hide Topological, BlacksInOrder, Stale, Counts, NoDup, GreysFirst;
  }

  lemma ListedCounts(p: Plan, u: Key)
    requires u in p.list
    ensures Counts(p, u)
  {}

  lemma CounterValue(p: Plan, s: State, u: Key)
    requires Inv(p, s) && u in p.out
    ensures u in s.wait && u in p.wait && s.wait[u] == p.wait[u] - |Freed(p, s.released, u)|
  {
    hide Freed, Listed, Queued, Tinted, Jobs, Logged, GreysFirst, Scope, History;
  }

  lemma CardOfRest<T>(a: set<T>, b: set<T>)
    requires a <= b
    ensures |b - a| == |b| - |a|
  {
    assert b == a + (b - a);
  }

  lemma ReadyMeansPrerequisitesEnded(p: Plan, s: State, u: Key)
    requires Prepared(p) && Inv(p, s) && u in p.list && Ready(p, s.wait, u)
    ensures Stale(p, u) <= s.ended
  {
    FreedAreStale(p, s, u);
    hide Topological, Stale, Freed, Listed, Queued, Tinted, Jobs, Logged, GreysFirst;
    SubsetCard(Freed(p, s.released, u), Stale(p, u));
  }

  lemma UpToDateNeverReady(p: Plan, s: State, u: Key)
    requires Prepared(p) && Inv(p, s) && u in p.order && u !in p.list
    ensures !Ready(p, s.wait, u)
  {
    FreedAreStale(p, s, u);
    hide Topological, Stale, Freed, Listed, Queued, Tinted, Jobs, Logged, GreysFirst;
  }

  lemma DispatchInv(p: Plan, s: State)
    requires Prepared(p) && Inv(p, s) && Enabled(p, s, Dispatch)
    ensures Inv(p, Next(p, s, Dispatch))
  {
    hide Prepared, Counters, Listed, Queued, Tinted, GreysFirst, Jobs, Logged;
    DispatchLists(p, s.colour, s.wait, s.list, s.queue, s.sent, s.begun, s.ended);
    var k := s.list[0];
    if k in p.order && k !in p.list { UpToDateNeverReady(p, s, k); }
  }

  lemma DispatchLists(p: Plan, colour: map<Key, Colour>, wait: map<Key, int>, list: seq<Key>, queue: seq<Key>,
                      sent: set<Key>, begun: set<Key>, ended: set<Key>)
    requires Listed(p, wait, list, sent) && Queued(queue, sent, begun) && GreysFirst(colour, list)
    requires Tinted(p, colour, wait, ended) && History(p, sent, begun, ended)
    requires list != [] && list[0] in colour && colour[list[0]] != Black
    ensures Listed(p, wait, list[1..], sent + {list[0]})
    ensures Queued(queue + [list[0]], sent + {list[0]}, begun)
    ensures GreysFirst(colour, list[1..])
    ensures History(p, sent + {list[0]}, begun, ended)
    ensures list[0] in p.out && Ready(p, wait, list[0])
  {
    hide Domains;
    assert forall u :: u in list[1..] <==> u in list && u != list[0];
    assert forall u :: u in queue + [list[0]] <==> u in queue || u == list[0];
  }

  lemma TakeInv(p: Plan, s: State, w: nat)
    requires Prepared(p) && Inv(p, s) && Enabled(p, s, Take(w))
    ensures Inv(p, Next(p, s, Take(w)))
  {
    hide Prepared, Counters, Queued, Tinted, GreysFirst, Jobs, Logged, Domains, NoDup;
    var k := s.queue[0];
    TakeQueue(s.queue, s.sent, s.begun);
    TakeJobs(p, s.jobs, s.begun, s.ended, s.released, w, k);
    if k in p.list { ReadyMeansPrerequisitesEnded(p, s, k); }
    LogGrows(p, s.log, s.begun, s.ended, Began(k));
    assert s.ended + {} == s.ended;
  }

  lemma TakeQueue(queue: seq<Key>, sent: set<Key>, begun: set<Key>)
    requires Queued(queue, sent, begun) && queue != []
    ensures Queued(queue[1..], sent, begun + {queue[0]})
    ensures queue[0] in sent && queue[0] !in begun
  {
    assert forall u :: u in queue[1..] <==> u in queue && u != queue[0];
  }

  lemma BusyKept(jobs: seq<Job>, w: nat, job: Job, k: Key)
    requires w < |jobs| && Busy(jobs, k) && (jobs[w].Idle? || jobs[w].task != k)
    ensures Busy(jobs[w := job], k)
  {
    var v :| 0 <= v < |jobs| && !jobs[v].Idle? && jobs[v].task == k;
    assert jobs[w := job][v] == jobs[v];
  }

  lemma TakeJobs(p: Plan, jobs: seq<Job>, begun: set<Key>, ended: set<Key>, released: set<(Key, Key)>, w: nat, k: Key)
    requires Jobs(p, jobs, begun, ended, released) && w < |jobs| && jobs[w].Idle? && k !in begun && ended <= begun
    ensures Jobs(p, jobs[w := Running(k)], begun + {k}, ended, released)
  {
    var t := jobs[w := Running(k)];
    assert !t[w].Idle? && t[w].task == k;
    forall j | Busy(jobs, j) ensures Busy(t, j) { BusyKept(jobs, w, t[w], j); }
    assert forall v | 0 <= v < |t| && v != w :: t[v] == jobs[v] && JobOk(p, jobs[v], begun, ended, released);
  }

  lemma LogGrows(p: Plan, log: seq<Event>, begun: set<Key>, ended: set<Key>, e: Event)
    requires Logged(p, log, begun, ended)
    requires e.Began? ==> e.key !in begun && (e.key in p.list ==> Stale(p, e.key) <= ended)
    requires e.Ended? ==> e.key in begun && e.key !in ended
    ensures Logged(p, log + [e], begun + if e.Began? then {e.key} else {}, ended + if e.Ended? then {e.key} else {})
  {
    assert (log + [e])[..|log|] == log;
  }

  lemma CompleteInv(p: Plan, s: State, w: nat)
    requires Prepared(p) && Inv(p, s) && Enabled(p, s, Complete(w))
    ensures Inv(p, Next(p, s, Complete(w)))
  {
    hide Prepared, Queued, Tinted, GreysFirst, Logged, Domains, NoDup, Freed, Busy, Jobs, Listed, JobOk;
    var k := s.jobs[w].task;
    RunningFacts(p, s, w);
    CompleteJobs(p, s.jobs, s.begun, s.ended, s.released, w);
    CompleteTints(p, s.colour, s.wait, s.list, s.ended, k);
    LogGrows(p, s.log, s.begun, s.ended, Ended(k));
    assert s.begun + {} == s.begun;
  }

  /** A running task has begun, has not ended, and is out of the list. */
  lemma RunningFacts(p: Plan, s: State, w: nat)
    requires Inv(p, s) && w < |s.jobs| && s.jobs[w].Running?
    ensures var k := s.jobs[w].task; k in s.begun && k !in s.ended && k !in s.list && Remove(s.list, k) == s.list
  {
    hide Counters, Queued, Tinted, GreysFirst, Logged, Scope, NoDup, Ready, Remove;
    assert JobOk(p, s.jobs[w], s.begun, s.ended, s.released);
    hide Jobs;
    RemoveSplits(s.list, s.jobs[w].task);
  }

  lemma CompleteTints(p: Plan, colour: map<Key, Colour>, wait: map<Key, int>, list: seq<Key>, ended: set<Key>, k: Key)
    requires Tinted(p, colour, wait, ended) && k in p.out && GreysFirst(colour, list) && k !in list
    ensures Tinted(p, colour[k := White], wait, ended + {k})
    ensures GreysFirst(colour[k := White], list)
  {
    hide Domains;
  }

  lemma CompleteJobs(p: Plan, jobs: seq<Job>, begun: set<Key>, ended: set<Key>, released: set<(Key, Key)>, w: nat)
    requires Jobs(p, jobs, begun, ended, released) && w < |jobs| && jobs[w].Running? && jobs[w].task in p.out
    requires forall a, b | (a, b) in released :: a in ended
    ensures var k := jobs[w].task;
            Jobs(p, jobs[w := AfterRelease(k, p.out[k])], begun, ended + {k}, released)
  {
    var k := jobs[w].task;
    var t := jobs[w := AfterRelease(k, p.out[k])];
    assert JobOk(p, jobs[w], begun, ended, released);
    if p.out[k] != {} { assert t[w].task == k && Busy(t, k); }
    forall j | Busy(jobs, j) && j != k ensures Busy(t, j) { BusyKept(jobs, w, t[w], j); }
    assert forall v | 0 <= v < |t| && v != w :: t[v] == jobs[v] && JobOk(p, jobs[v], begun, ended, released);
  }

  lemma GreyNeverReleased(p: Plan, k: Key, u: Key)
    requires Prepared(p) && k in p.out && u in p.out[k] && (k in p.order ==> k in p.list)
    ensures p.colour[u] != Grey
    ensures u in p.list ==> p.colour[u] == Black
  {
    if u in p.order {
      PrerequisiteCollected(p, k, u);
      assert k in Stale(p, u);
    }
    hide Topological, GreysFirst, NoDup, Stale;
  }

  lemma PrerequisiteCollected(p: Plan, k: Key, u: Key)
    requires Prepared(p) && u in p.order && k in In(p, u)
    ensures k in p.order
  {
    var i :| 0 <= i < |p.order| && p.order[i] == u;
    assert k in p.order[..i];
  }

  lemma FreedGrows(p: Plan, released: set<(Key, Key)>, k: Key, u: Key, v: Key)
    requires k in p.out && (k, u) !in released
    ensures |Freed(p, released + {(k, u)}, v)| == |Freed(p, released, v)| + if v == u then 1 else 0
  {
    if v == u {
      assert Freed(p, released + {(k, u)}, v) == Freed(p, released, v) + {k};
    } else {
      assert Freed(p, released + {(k, u)}, v) == Freed(p, released, v);
    }
  }

  lemma ReleaseCounters(p: Plan, wait: map<Key, int>, released: set<(Key, Key)>, ended: set<Key>, k: Key, u: Key)
    requires Counters(p, wait, released, ended)
    requires k in ended && k in p.out && u in p.out && u in p.out[k] && (k, u) !in released
    ensures Counters(p, wait[u := wait[u] - 1], released + {(k, u)}, ended)
  {
    var released', wait' := released + {(k, u)}, wait[u := wait[u] - 1];
    forall v | v in p.out ensures wait'[v] == p.wait[v] - |Freed(p, released', v)| {
      FreedGrows(p, released, k, u, v);
    }
    hide Freed, Domains;
  }

  lemma ReleaseJobs(p: Plan, jobs: seq<Job>, begun: set<Key>, ended: set<Key>, released: set<(Key, Key)>, w: nat, u: Key)
    requires Jobs(p, jobs, begun, ended, released) && w < |jobs| && jobs[w].Releasing? && u in jobs[w].todo
    ensures var k := jobs[w].task;
            Jobs(p, jobs[w := AfterRelease(k, jobs[w].todo - {u})], begun, ended, released + {(k, u)})
  {
    var k := jobs[w].task;
    var rest := jobs[w].todo - {u};
    var t, released' := jobs[w := AfterRelease(k, rest)], released + {(k, u)};
    assert JobOk(p, jobs[w], begun, ended, released);
    if rest != {} { assert !t[w].Idle? && t[w].task == k && Busy(t, k); }
    forall j | Busy(jobs, j) && j != k ensures Busy(t, j) { BusyKept(jobs, w, t[w], j); }
    forall v | 0 <= v < |t| ensures JobOk(p, t[v], begun, ended, released') {
      assert JobOk(p, jobs[v], begun, ended, released);
      assert v != w && !jobs[v].Idle? ==> jobs[v].task != k;
    }
    forall j, v | j in ended && j in p.out && v in p.out[j] && (j, v) !in released' ensures Busy(t, j) {
      if j == k { assert v in rest; }
    }
  }

  lemma MovedToFront<N>(colour: map<N, Colour>, list: seq<N>, u: N)
    requires GreysFirst(colour, list) && NoDup(list)
    ensures GreysFirst(colour[u := Grey], [u] + Remove(list, u))
    ensures NoDup([u] + Remove(list, u))
    ensures forall y :: y in [u] + Remove(list, u) <==> y in list || y == u
  {
    RemoveSplits(list, u);
    RemoveFacts(list, u);
  }

  lemma ReleaseInv(p: Plan, s: State, w: nat, u: Key)
    requires Prepared(p) && Inv(p, s) && Enabled(p, s, Release(w, u))
    ensures Inv(p, Next(p, s, Release(w, u)))
  {
    hide Prepared, Counters, Queued, Logged, Domains, NoDup, Freed, Busy, Listed, Tinted, GreysFirst;
    assert JobOk(p, s.jobs[w], s.begun, s.ended, s.released);
    hide Jobs;
    GreyNeverReleased(p, s.jobs[w].task, u);
    ReleaseReady(p, s.wait, s.released, s.ended, u);
    ReleaseCounters(p, s.wait, s.released, s.ended, s.jobs[w].task, u);
    ReleaseJobs(p, s.jobs, s.begun, s.ended, s.released, w, u);
    ReleaseLists(p, s.colour, s.wait, s.list, s.sent, s.ended, u);
    if s.wait[u] == 1 { ReleaseScope(p, s.wait, s.list, s.sent, u); }
  }

  /** Counting `u` down makes only `u` ready, and only when its counter reaches zero. */
  lemma ReleaseReady(p: Plan, wait: map<Key, int>, released: set<(Key, Key)>, ended: set<Key>, u: Key)
    requires Counters(p, wait, released, ended) && u in p.out && p.colour[u] != Grey
    ensures Keyed(p, wait[u := wait[u] - 1])
    ensures forall v | v in p.out ::
              Ready(p, wait[u := wait[u] - 1], v) <==> Ready(p, wait, v) || (v == u && wait[u] == 1)
    ensures Ready(p, wait, u) ==> wait[u] != 1
  {
    hide Freed;
    assert |Freed(p, released, u)| >= 0;
  }

  lemma ReleaseLists(p: Plan, colour: map<Key, Colour>, wait: map<Key, int>, list: seq<Key>,
                     sent: set<Key>, ended: set<Key>, u: Key)
    requires Keyed(p, wait) && u in p.out
    requires Listed(p, wait, list, sent) && GreysFirst(colour, list) && Tinted(p, colour, wait, ended)
    requires ended <= sent
    requires forall v | v in p.out ::
              Ready(p, wait[u := wait[u] - 1], v) <==> Ready(p, wait, v) || (v == u && wait[u] == 1)
    requires Ready(p, wait, u) ==> wait[u] != 1
    ensures var wait' := wait[u := wait[u] - 1];
            var list' := if wait'[u] != 0 then list else [u] + Remove(list, u);
            var colour' := if wait'[u] != 0 then colour else colour[u := Grey];
            Listed(p, wait', list', sent) && GreysFirst(colour', list') && Tinted(p, colour', wait', ended)
  {
    var wait' := wait[u := wait[u] - 1];
    if wait'[u] == 0 {
      MovedToFront(colour, list, u);
      hide GreysFirst, NoDup, Domains;
      var list' := [u] + Remove(list, u);
      hide Remove;
      assert Listed(p, wait', list', sent);
      assert Tinted(p, colour[u := Grey], wait', ended);
    } else {
      hide GreysFirst, NoDup, Domains;
      assert Listed(p, wait', list, sent);
      assert Tinted(p, colour, wait', ended);
    }
  }

  lemma ReleaseScope(p: Plan, wait: map<Key, int>, list: seq<Key>, sent: set<Key>, u: Key)
    requires Listed(p, wait, list, sent) && u in p.out && (Ready(p, wait, u) ==> wait[u] != 1) && wait[u] == 1
    ensures p.colour[u] == Black ==> u in list
    ensures forall v :: v in [u] + Remove(list, u) ==> v in list || v == u
  {
    hide Domains;
    RemoveFacts(list, u);
  }

  lemma {:induction false} StepInv(p: Plan, s: State, step: Step)
    requires Prepared(p) && Inv(p, s) && Enabled(p, s, step)
    ensures Inv(p, Next(p, s, step))
  {
    match step
    case Dispatch => DispatchInv(p, s);
    case Quit => hide Prepared, Counters, Listed, Queued, Tinted, Jobs, Logged, GreysFirst;
    case Take(w) => TakeInv(p, s, w);
    case Complete(w) => CompleteInv(p, s, w);
    case Fail(w) => hide Prepared, Counters, Listed, Queued, Tinted, Jobs, Logged, GreysFirst;
    case Release(w, u) => ReleaseInv(p, s, w, u);
  }

  /** Every state of every interleaving, with any number of workers, satisfies the invariant. */
  lemma {:induction false} Always(p: Plan, n: nat, steps: seq<Step>)
    requires Prepared(p) && After(p, n, steps).Legal?
    ensures Inv(p, After(p, n, steps).state)
    ensures |After(p, n, steps).state.jobs| == n
  {
    hide Inv, Topological, Coloured;
    if steps == [] {
      InitInv(p, n);
    } else {
      Always(p, n, steps[..|steps| - 1]);
      StepInv(p, After(p, n, steps[..|steps| - 1]).state, steps[|steps| - 1]);
    }
  }
}
