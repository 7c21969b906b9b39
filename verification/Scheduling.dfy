/** The scheduling stage of `dag::schedule`: a master and any number of workers
    sharing a task list, a task queue and one counter per node.  The stage is a
    transition system; an interleaving is a sequence of steps.  Here a release is
    atomic: one step counts a child down, turns it GREY and moves it to the front.
    `FineScheduling` takes the step apart at the locks. */
module Scheduling {
  import opened Colours
  import opened Lists

  type Key = string

  /** What the preprocessing stage hands over: the graph, each node's colour and
      counter, the collected nodes with parents first (`order`), and the task list. */
  datatype Plan = Plan(out: map<Key, set<Key>>, colour: map<Key, Colour>, wait: map<Key, int>,
                       order: seq<Key>, list: seq<Key>, recipes: set<Key>)

  /** The prerequisites of `u`. */
  ghost function In(p: Plan, u: Key): set<Key> {
    set v | v in p.out && u in p.out[v]
  }

  /** The prerequisites of `u` that are outdated. */
  ghost function Stale(p: Plan, u: Key): set<Key> {
    set v | v in p.out && u in p.out[v] && v in p.list
  }

  ghost predicate Domains(p: Plan) {
    && p.colour.Keys == p.out.Keys && p.wait.Keys == p.out.Keys
    && (forall u | u in p.out :: p.out[u] <= p.out.Keys)
    && (forall u | u in p.order :: u in p.out)
    && (forall u | u in p.list :: u in p.order)
  }

  /** Nothing is collected twice and every prerequisite of a collected node is collected before it. */
  ghost predicate Topological(p: Plan) {
    && NoDup(p.order)
    && forall i, v | 0 <= i < |p.order| && v in In(p, p.order[i]) :: v in p.order[..i]
  }

  /** The task list after preprocessing.  Nothing is said about the counters of nodes
      outside `order` and of up-to-date sources: the source never sets them. */
  ghost predicate Coloured(p: Plan)
    requires Domains(p)
  {
    && NoDup(p.list) && GreysFirst(p.colour, p.list)
    && (forall u | u in p.out :: u in p.list <==> p.colour[u] != White)
    && (forall u | u in p.order :: p.colour[u] == Black <==> Stale(p, u) != {})
    && (forall u | u in p.order && Counts(p, u) :: p.wait[u] == |Stale(p, u)|)
  }

  /** Preprocessing sets the counter of `u`: it has prerequisites or is outdated. */
  ghost predicate Counts(p: Plan, u: Key) {
    In(p, u) != {} || u in p.list
  }

  /** BLACK nodes keep the order in which they were collected. */
  ghost predicate BlacksInOrder(p: Plan)
    requires Domains(p)
  {
    forall i, j | 0 <= i < j < |p.list| && p.colour[p.list[i]] == Black == p.colour[p.list[j]] ::
      Before(p.order, p.list[i], p.list[j])
  }

  ghost predicate Prepared(p: Plan) {
    Domains(p) && Topological(p) && Coloured(p) && BlacksInOrder(p)
  }

  datatype Job = Idle | Running(task: Key) | Releasing(task: Key, todo: set<Key>)

  datatype Event = Began(key: Key) | Ended(key: Key)

  /** `sent`, `begun`, `ended`, `released` and `log` record history only: no step reads them. */
  datatype State = State(colour: map<Key, Colour>, wait: map<Key, int>, list: seq<Key>, queue: seq<Key>,
                         jobs: seq<Job>, finish: bool, aborted: bool,
                         sent: set<Key>, begun: set<Key>, ended: set<Key>,
                         released: set<(Key, Key)>, log: seq<Event>)

  datatype Step =
    | Dispatch                      // master: move the head of the list to the queue
    | Quit                          // master: the list is empty, raise the finish flag
    | Take(worker: nat)             // worker: pop the queue and start the recipe
    | Complete(worker: nat)         // worker: recipe done, turn the node WHITE
    | Fail(worker: nat)             // worker: recipe failed, the process exits
    | Release(worker: nat, child: Key)  // worker: count one child down

  function Init(p: Plan, n: nat): State {
    State(p.colour, p.wait, p.list, [], seq(n, _ => Idle), false, false, {}, {}, {}, {}, [])
  }

  predicate Typed(p: Plan, s: State) {
    s.colour.Keys == p.out.Keys && s.wait.Keys == p.out.Keys
  }

  predicate Enabled(p: Plan, s: State, step: Step) {
    && Typed(p, s)
    && !s.aborted
    && match step
       case Dispatch => !s.finish && s.list != [] && s.list[0] in s.colour && s.colour[s.list[0]] != Black
       case Quit => !s.finish && s.list == []
       case Take(w) => w < |s.jobs| && s.jobs[w].Idle? && s.queue != []
       case Complete(w) => w < |s.jobs| && s.jobs[w].Running? && s.jobs[w].task in p.out
       case Fail(w) => w < |s.jobs| && s.jobs[w].Running? && s.jobs[w].task in p.recipes
       case Release(w, u) => w < |s.jobs| && s.jobs[w].Releasing? && u in s.jobs[w].todo && u in p.out
  }

  function AfterRelease(k: Key, todo: set<Key>): Job {
    if todo == {} then Idle else Releasing(k, todo)
  }

  function Next(p: Plan, s: State, step: Step): (t: State)
    requires Enabled(p, s, step)
    ensures Typed(p, t) && |t.jobs| == |s.jobs|
  {
    match step
    case Dispatch =>
      s.(queue := s.queue + [s.list[0]], list := s.list[1..], sent := s.sent + {s.list[0]})
    case Quit =>
      s.(finish := true)
    case Take(w) =>
      s.(queue := s.queue[1..], jobs := s.jobs[w := Running(s.queue[0])],
         begun := s.begun + {s.queue[0]}, log := s.log + [Began(s.queue[0])])
    case Complete(w) =>
      var k := s.jobs[w].task;
      s.(colour := s.colour[k := White], list := Remove(s.list, k),
         jobs := s.jobs[w := AfterRelease(k, p.out[k])],
         ended := s.ended + {k}, log := s.log + [Ended(k)])
    case Fail(w) =>
      s.(aborted := true)
    case Release(w, u) =>
      var k := s.jobs[w].task;
      var t := s.(wait := s.wait[u := s.wait[u] - 1], released := s.released + {(k, u)},
                  jobs := s.jobs[w := AfterRelease(k, s.jobs[w].todo - {u})]);
      if t.wait[u] != 0 then t
      else t.(colour := t.colour[u := Grey], list := [u] + Remove(t.list, u))
  }

  /** The state after an interleaving, or `Illegal` when some step was not enabled. */
  datatype Outcome = Legal(state: State) | Illegal

  function After(p: Plan, n: nat, steps: seq<Step>): (r: Outcome)
    ensures r.Legal? ==> |r.state.jobs| == n
  {
    if steps == [] then Legal(Init(p, n))
    else
      var r := After(p, n, steps[..|steps| - 1]);
      var step := steps[|steps| - 1];
      if r.Legal? && Enabled(p, r.state, step) then Legal(Next(p, r.state, step)) else Illegal
  }
}
