/** One node dispatched twice, in step with the atomic system: the second dispatch takes the place of
    the only one there, and an extra worker keeps the first. */
module FineTwice {
  import opened Colours
  import opened Lists
  import opened Scheduling
  import opened SchedulingInvariant
  import opened FineScheduling
  import FineInvariant
  import opened FineSafety
  import opened FineMatching
  import opened FineGreedy
  import opened FineDouble
  import opened FineTheorems
  import opened FineStall

  ghost function AfterBoth(p: Plan, s: State, w: nat, u: Key): State
    requires Enabled(p, s, Release(w, u)) && s.wait[u] == 1
  {
    Next(p, s, Release(w, u)).(queue := s.queue + [u], list := Remove(s.list, u), sent := s.sent + {u})
  }

  lemma BothSteps(p: Plan, s: State, w: nat, u: Key)
    requires Prepared(p) && Inv(p, s) && Enabled(p, s, Release(w, u)) && s.wait[u] == 1 && !s.finish
    ensures Inv(p, AfterBoth(p, s, w, u))
  {
    hide Inv, Prepared, Enabled, Next, AfterBoth;
    StepInv(p, s, Release(w, u));
    BothShape(p, s, w, u);
    StepInv(p, Next(p, s, Release(w, u)), Dispatch);
  }

  lemma BothShape(p: Plan, s: State, w: nat, u: Key)
    requires Enabled(p, s, Release(w, u)) && s.wait[u] == 1 && !s.finish
    ensures var r := Next(p, s, Release(w, u)); Enabled(p, r, Dispatch) && Next(p, r, Dispatch) == AfterBoth(p, s, w, u)
    ensures var t := AfterBoth(p, s, w, u);
            && t.ended == s.ended && !t.aborted && !t.finish && t.queue == s.queue + [u] && t.list == Remove(s.list, u)
            && t.wait == s.wait[u := 0] && t.colour == s.colour[u := Grey]
            && t.jobs == s.jobs[w := AfterRelease(s.jobs[w].task, s.jobs[w].todo - {u})]
  {
    hide Remove, AfterRelease;
    assert ([u] + Remove(s.list, u))[1..] == Remove(s.list, u);
  }

  /** `u` has been dispatched twice, and worker `e`, beyond the first `m`, runs the first dispatch. */
  ghost predicate NewExtra(m: nat, f: Fine, g: Fine, u: Key, e: nat) {
    && f.sent + {Tok(u, false), Tok(u, true)} <= g.sent && |f.works| == |g.works|
    && m <= e < |f.works| && g.works[e] == Runs(Tok(u, false))
    && forall w | m <= w < |f.works| && w != e :: g.works[w] == f.works[w]
  }

  lemma TwiceMatches(p: Plan, s: State, f: Fine, w: nat, u: Key, e: nat)
    requires Match(p, s, f) && Exposed(p, f, w, u) && w < |s.jobs| && Enabled(p, s, Release(w, u)) && s.wait[u] == 1
    requires s.queue == [] && |s.jobs| <= e < |f.works| && f.works[e].Free?
    ensures var g := AfterTwice(f, w, u);
            && Can(p, g, Pop(e)) && Match(p, AfterBoth(p, s, w, u), Do(p, g, Pop(e)))
            && NewExtra(|s.jobs|, f, Do(p, g, Pop(e)), u, e)
  {
    hide Enabled, Do, Can, AfterTwice, AfterBoth, Exposed, Poised, SameJobs, Done, AfterRelease, Onward, Remove, HeadGoes, Match;
    ReleasingAt(p, s, w, u);
    JobMatches(p, s, f, w);
    PoisedFacts(p, f, w, u);
    MatchParts(p, s, f);
    TwiceJobs(s, f, w, u, e);
    BothShape(p, s, w, u);
    TwicePop(p, f, w, u, e);
    MakeMatch(p, AfterBoth(p, s, w, u), Do(p, AfterTwice(f, w, u), Pop(e)), u);
  }

  lemma ReleasingAt(p: Plan, s: State, w: nat, u: Key)
    requires Enabled(p, s, Release(w, u))
    ensures w < |s.jobs| && s.jobs[w].Releasing? && u in s.wait && u in s.colour
  {}

  lemma MatchParts(p: Plan, s: State, f: Fine)
    requires Match(p, s, f)
    ensures f.colour == s.colour && f.wait == s.wait && f.list == s.list && SameJobs(s.jobs, f.works) && !s.finish
    ensures s.queue == [] ==> f.queue == []
    ensures forall k :: k in s.ended <==> Done(f.ended, k)
  {
    hide SameJobs, Done, HeadGoes;
  }

  lemma MakeMatch(p: Plan, t: State, h: Fine, u: Key)
    requires h.colour == t.colour && h.wait == t.wait && h.list == t.list && SameJobs(t.jobs, h.works)
    requires !h.aborted && !t.aborted && !t.finish && h.master.Watching? && t.queue == [u] && h.queue == [Tok(u, true)]
    requires forall k :: k in t.ended <==> Done(h.ended, k)
    ensures Match(p, t, h)
  {
    hide SameJobs, Done, HeadGoes;
    assert SameQueue([u], [Tok(u, true)]);
  }

  lemma TwicePop(p: Plan, f: Fine, w: nat, u: Key, e: nat)
    requires Exposed(p, f, w, u) && f.queue == [] && e < |f.works| && f.works[e].Free?
    ensures var g := AfterTwice(f, w, u); Can(p, g, Pop(e))
    ensures var h := Do(p, AfterTwice(f, w, u), Pop(e));
            && h.colour == f.colour[u := Grey] && h.wait == f.wait[u := 0] && h.list == Remove(f.list, u)
            && h.queue == [Tok(u, true)] && h.works == f.works[w := Onward(f.works[w].tok, f.works[w].todo - {u})][e := Runs(Tok(u, false))]
            && h.master.Watching? && !h.aborted && h.ended == f.ended && h.sent == f.sent + {Tok(u, false)} + {Tok(u, true)}
  {
    RemoveHead(f.list);
    hide Remove, NoDup, LockFree, Onward;
    var g := AfterTwice(f, w, u);
    assert g.queue == [Tok(u, false), Tok(u, true)];
    assert g.queue[1..] == [Tok(u, true)];
  }

  lemma RemoveHead<T>(s: seq<T>)
    requires NoDup(s) && s != []
    ensures Remove(s, s[0]) == s[1..]
  {
    RemoveSplits(s, s[0]);
    hide Remove, NoDup;
    assert s[..0] + s[1..] == s[1..];
  }

  lemma TwiceJobs(s: State, f: Fine, w: nat, u: Key, e: nat)
    requires SameJobs(s.jobs, f.works) && w < |s.jobs| && s.jobs[w].Releasing? && f.works[w].Releases?
    requires |s.jobs| <= e < |f.works|
    ensures SameJobs(s.jobs[w := AfterRelease(s.jobs[w].task, s.jobs[w].todo - {u})],
                     f.works[w := Onward(f.works[w].tok, f.works[w].todo - {u})][e := Runs(Tok(u, false))])
  {
    assert SameJob(s.jobs[w], f.works[w]);
    OnwardMatches(f.works[w].tok, f.works[w].todo - {u});
  }

  lemma IsStalled(p: Plan, s: State, f: Fine, parked: set<Key>, held: set<Key>)
    requires Inv(p, s) && Match(p, s, f) && parked !! held && |s.jobs| > |parked| + |held|
    requires Exhausted(p, s, Avoid(parked, held)) && Kept(Avoid(parked, held), s)
    ensures Stalled(p, s, parked, held)
  {
    hide Inv, Exhausted, Kept, SameQueue, SameJobs, HeadGoes, Done;
  }

  lemma LetGo(p: Plan, s: State, w: nat, u: Key, parked: set<Key>, held: set<Key>)
    requires Kept(Avoid(parked, held), s) && Enabled(p, s, Release(w, u)) && s.wait[u] == 1 && !s.finish
    ensures Kept(Avoid(parked, held - {u}), AfterBoth(p, s, w, u)) && |AfterBoth(p, s, w, u).jobs| == |s.jobs|
  {
    BothShape(p, s, w, u);
    hide Enabled, AfterBoth, Next;
  }

  lemma ExtraAfter(m: nat, f: Fine, g: Fine, h: Fine, u: Key, e: nat)
    requires SameExtras(m, f, g) && NewExtra(m, g, h, u, e)
    ensures NewExtra(m, f, h, u, e)
  {}

  /** From matching states, drive both systems until `u` is reached in its place, and dispatch it twice. */
  lemma DispatchTwice(p: Plan, n: nat, s: State, moves: seq<Move>, parked: set<Key>, held: set<Key>, u: Key, e: nat)
      returns (t: State, more: seq<Move>)
    requires Prepared(p) && Inv(p, s) && Follow(p, n, moves).Reached? && Match(p, s, Follow(p, n, moves).fine)
    requires Kept(Avoid(parked, held), s) && FirstHeld(p, parked, held, u) && parked !! held && |s.jobs| > |parked| + |held|
    requires |s.jobs| <= e < n && Follow(p, n, moves).fine.works[e].Free?
    ensures Inv(p, t) && Follow(p, n, more).Reached? && Match(p, t, Follow(p, n, more).fine) && |t.jobs| == |s.jobs|
    ensures Kept(Avoid(parked, held - {u}), t)
    ensures NewExtra(|s.jobs|, Follow(p, n, moves).fine, Follow(p, n, more).fine, u, e)
  {
    hide Prepared, Inv, Match, Follow, Exhausted, Kept, Stalled, Exposed, FineInvariant.FineInv, Can, Do, Enabled,
         AfterBoth, AfterTwice, FirstHeld, NewExtra;
    var r: State;
    r, more := Drive(p, Avoid(parked, held), s, n, moves);
    var f := Follow(p, n, more).fine;
    IsStalled(p, r, f, parked, held);
    FineInvariant.AlwaysFine(p, n, more);
    FirstHeldFacts(p, parked, held, u);
    var w := HeldIsExposed(p, r, f, parked, held, u);
    var i := SomeIdle(p, r, parked, held);
    PoisedFacts(p, f, w, u);
    more := SendTwice(p, n, more, w, u);
    TwiceMatches(p, r, f, w, u, e);
    Extend(p, n, more, Pop(e));
    more := more + [Pop(e)];
    StalledInv(p, r, parked, held);
    BothSteps(p, r, w, u);
    t := AfterBoth(p, r, w, u);
    LetGo(p, r, w, u, parked, held);
    ExtraAfter(|s.jobs|, Follow(p, n, moves).fine, f, Follow(p, n, more).fine, u, e);
  }

  lemma BeginHeld(p: Plan, m: nat, n: nat, parked: set<Key>, held: set<Key>)
    requires Prepared(p) && m <= n && forall u | u in held :: u in p.list && u in p.colour && p.colour[u] == Black
    ensures Kept(Avoid(parked, held), Init(p, m)) && Inv(p, Init(p, m)) && Match(p, Init(p, m), Start(p, n))
    ensures Follow(p, n, []) == Reached(Start(p, n)) && |Init(p, m).jobs| == m
    ensures |Start(p, n).works| == n && forall w | 0 <= w < n :: Start(p, n).works[w].Free?
  {
    hide Prepared, Inv, Match, Kept;
    InitInv(p, m);
    StartMatches(p, m, n);
    HeldAtStart(p, m, parked, held);
  }

  lemma HeldAtStart(p: Plan, m: nat, parked: set<Key>, held: set<Key>)
    requires Prepared(p) && forall u | u in held :: u in p.list && u in p.colour && p.colour[u] == Black
    ensures Kept(Avoid(parked, held), Init(p, m))
  {
    hide Prepared, Stale, Counts;
    ListedInOrder(p);
    forall u | u in held ensures u in p.wait && p.wait[u] >= 1 {
      BlackHasStale(p, u);
      ListedCounts(p, u);
      InitialCounter(p, u);
    }
  }
}
