/** Driving the locked stage towards a critical moment: steps are taken as long as a goal allows. */
module FineGreedy {
  import opened Colours
  import opened Scheduling
  import opened SchedulingInvariant
  import opened SchedulingTheorems
  import opened FineScheduling
  import opened FineMatching

  /** Keep some node BLACK; or keep the nodes of `parked` from ending and those of `held` from
      being counted to zero. */
  datatype Goal = LeaveOne | Avoid(parked: set<Key>, held: set<Key>)

  ghost predicate SomeBlack(s: State) {
    exists u :: u in s.colour && s.colour[u] == Black
  }

  ghost predicate Allowed(p: Plan, s: State, goal: Goal, step: Step) {
    && Polite(p, s, step)
    && match goal
       case LeaveOne => SomeBlack(Next(p, s, step))
       case Avoid(parked, held) =>
         && (step.Complete? ==> s.jobs[step.worker].task !in parked)
         && (step.Release? && step.child in held ==> s.wait[step.child] != 1)
  }

  ghost predicate Positive(wait: map<Key, int>, held: set<Key>) {
    forall u | u in held :: u in wait && wait[u] >= 1
  }

  ghost predicate Kept(goal: Goal, s: State) {
    match goal
    case LeaveOne => SomeBlack(s)
    case Avoid(parked, held) => parked !! s.ended && Positive(s.wait, held)
  }

  lemma AllowedKeeps(p: Plan, s: State, goal: Goal, step: Step)
    requires Allowed(p, s, goal, step) && Kept(goal, s)
    ensures Kept(goal, Next(p, s, step)) && s.ended <= Next(p, s, step).ended
  {}

  ghost predicate Exhausted(p: Plan, s: State, goal: Goal) {
    forall step :: !Allowed(p, s, goal, step)
  }

  lemma ListColours(p: Plan, s: State)
    requires Inv(p, s)
    ensures forall u | u in s.list :: u in s.colour
  {
    hide Counters, History, Listed, Queued, Tinted, Jobs, Scope, Logged;
  }

  /** From matching states both systems can go on together until the goal allows no step. */
  lemma {:induction false} Drive(p: Plan, goal: Goal, s: State, n: nat, moves: seq<Move>) returns (t: State, more: seq<Move>)
    requires Prepared(p) && Inv(p, s) && Kept(goal, s)
    requires Follow(p, n, moves).Reached? && Match(p, s, Follow(p, n, moves).fine)
    ensures Inv(p, t) && Kept(goal, t) && Exhausted(p, t, goal) && |t.jobs| == |s.jobs| && s.ended <= t.ended
    ensures Follow(p, n, more).Reached? && Match(p, t, Follow(p, n, more).fine)
    ensures SameExtras(|s.jobs|, Follow(p, n, moves).fine, Follow(p, n, more).fine)
    decreases Measure(p, s)
  {
    if step :| Allowed(p, s, goal, step) {
      AllowedKeeps(p, s, goal, step);
      AllowedIsPolite(p, s, goal, step);
      StepInv(p, s, step);
      StepDecreases(p, s, step);
      ListColours(p, s);
      hide Prepared, Inv, Allowed, Kept, Match, Follow, Next, Enabled, Works, Measure, SameExtras;
      var next := RunStep(p, s, step, n, moves);
      t, more := Drive(p, goal, Next(p, s, step), n, next);
      ExtrasStay(|s.jobs|, Follow(p, n, moves).fine, Follow(p, n, next).fine, Follow(p, n, more).fine);
    } else {
      t, more := s, moves;
      hide Prepared, Inv, Allowed, Kept, Match, Follow, Next, Enabled;
    }
  }

  lemma AllowedIsPolite(p: Plan, s: State, goal: Goal, step: Step)
    requires Allowed(p, s, goal, step)
    ensures Polite(p, s, step) && Enabled(p, s, step)
  {}

  lemma ExtrasStay(m: nat, f: Fine, g: Fine, h: Fine)
    requires SameExtras(m, f, g) && SameExtras(m, g, h)
    ensures SameExtras(m, f, h)
  {}

  /** An interleaving of the atomic system in which no pass of the master is interrupted. */
  ghost predicate PoliteRun(p: Plan, n: nat, steps: seq<Step>) {
    steps == [] ||
    var front := After(p, n, steps[..|steps| - 1]);
    PoliteRun(p, n, steps[..|steps| - 1]) && front.Legal? && Polite(p, front.state, steps[|steps| - 1])
  }

  /** Every such interleaving happens in the locked system, and leads to the same state. */
  lemma {:induction false} PoliteRunsHappen(p: Plan, n: nat, steps: seq<Step>) returns (moves: seq<Move>)
    requires Prepared(p) && PoliteRun(p, n, steps)
    ensures After(p, n, steps).Legal? && Follow(p, n, moves).Reached?
    ensures Match(p, After(p, n, steps).state, Follow(p, n, moves).fine)
  {
    hide Prepared, Match, Inv, Follow, Next;
    if steps == [] {
      StartMatches(p, n, n);
      moves := [];
      assert Follow(p, n, moves) == Reached(Start(p, n)) by { NoMoves(p, n); }
    } else {
      var front := steps[..|steps| - 1];
      moves := PoliteRunsHappen(p, n, front);
      Always(p, n, front);
      ListColours(p, After(p, n, front).state);
      moves := RunStep(p, After(p, n, front).state, steps[|steps| - 1], n, moves);
    }
  }

  lemma NoMoves(p: Plan, n: nat)
    ensures Follow(p, n, []) == Reached(Start(p, n))
  {}
}
