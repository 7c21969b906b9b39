/** Runs of the atomic system are runs of the locked one, as long as the master's passes are
    not interrupted. */
module FineMatching {
  import opened Scheduling
  import opened SchedulingTheorems
  import opened FineScheduling
  import opened FineSafety

  ghost predicate SameQueue(queue: seq<Key>, toks: seq<Tok>) {
    |queue| == |toks| && forall i | 0 <= i < |queue| :: toks[i].key == queue[i]
  }

  ghost predicate SameJob(job: Job, work: Work) {
    match job
    case Idle => work.Free?
    case Running(k) => work.Runs? && work.tok.key == k
    case Releasing(k, todo) => work.Releases? && work.tok.key == k && work.todo == todo
  }

  /** The locked system may have more workers; these rest or run a recipe. */
  ghost predicate SameJobs(jobs: seq<Job>, works: seq<Work>) {
    && |jobs| <= |works|
    && (forall w | 0 <= w < |jobs| :: SameJob(jobs[w], works[w]))
    && (forall w | |jobs| <= w < |works| :: works[w].Free? || works[w].Runs?)
  }

  /** Both systems are in the same state, and the master is in a pass only while it has nodes to send. */
  ghost predicate Match(p: Plan, s: State, f: Fine) {
    && f.colour == s.colour && f.wait == s.wait && f.list == s.list
    && !f.aborted && !s.aborted && !s.finish
    && (f.master.Watching? || (f.master.Passing? && HeadGoes(f)))
    && SameQueue(s.queue, f.queue) && SameJobs(s.jobs, f.works)
    && forall k :: k in s.ended <==> Done(f.ended, k)
  }

  /** Workers beyond the first `m` are as they were, and nothing that was sent is forgotten. */
  ghost predicate SameExtras(m: nat, f: Fine, g: Fine) {
    f.sent <= g.sent && |f.works| == |g.works| && forall w | m <= w < |f.works| :: g.works[w] == f.works[w]
  }

  lemma StartMatches(p: Plan, m: nat, n: nat)
    requires m <= n
    ensures Match(p, Init(p, m), Start(p, n))
  {}

  /** A step that does not interrupt a pass. */
  ghost predicate Polite(p: Plan, s: State, step: Step) {
    Works(step) && Enabled(p, s, step) && (step == Dispatch || !Enabled(p, s, Dispatch))
  }

  lemma FreeLock(p: Plan, s: State, f: Fine)
    requires Match(p, s, f) && Shaped(p, f) && !Enabled(p, s, Dispatch)
    ensures f.master.Watching? && LockFree(f)
  {
    forall w | 0 <= w < |f.works| ensures !f.works[w].Drops? {
      if w < |s.jobs| { assert SameJob(s.jobs[w], f.works[w]); }
    }
  }

  lemma JobMatches(p: Plan, s: State, f: Fine, w: nat)
    requires Match(p, s, f) && w < |s.jobs|
    ensures SameJob(s.jobs[w], f.works[w])
  {}

  lemma UpdateMatches(jobs: seq<Job>, works: seq<Work>, w: nat, job: Job, work: Work)
    requires SameJobs(jobs, works) && w < |jobs| && SameJob(job, work)
    ensures SameJobs(jobs[w := job], works[w := work])
  {}

  lemma OnwardMatches(t: Tok, todo: set<Key>)
    ensures SameJob(AfterRelease(t.key, todo), Onward(t, todo))
  {}

  // ---------- one step ----------

  lemma MatchTake(p: Plan, s: State, f: Fine, w: nat)
    requires Match(p, s, f) && Enabled(p, s, Take(w))
    ensures Can(p, f, Pop(w)) && Match(p, Next(p, s, Take(w)), Do(p, f, Pop(w)))
    ensures SameExtras(|s.jobs|, f, Do(p, f, Pop(w)))
  {
    JobMatches(p, s, f, w);
    UpdateMatches(s.jobs, f.works, w, Running(s.queue[0]), Runs(f.queue[0]));
    hide SameJobs, Done, HeadGoes;
  }

  lemma MatchComplete(p: Plan, s: State, f: Fine, w: nat)
    requires Match(p, s, f) && Enabled(p, s, Complete(w)) && !Enabled(p, s, Dispatch)
    ensures Can(p, f, Whiten(w))
    ensures var g := Do(p, f, Whiten(w));
            Can(p, g, Purge(w)) && Match(p, Next(p, s, Complete(w)), Do(p, g, Purge(w)))
            && SameExtras(|s.jobs|, f, Do(p, g, Purge(w)))
  {
    JobMatches(p, s, f, w);
    FreeLock(p, s, f);
    var t, g := f.works[w].tok, Do(p, f, Whiten(w));
    assert LockFree(g);
    OnwardMatches(t, p.out[t.key]);
    UpdateMatches(s.jobs, f.works, w, AfterRelease(t.key, p.out[t.key]), Onward(t, p.out[t.key]));
    hide SameJobs, SameQueue, HeadGoes, LockFree, AfterRelease, Onward;
    assert f.works[w := Purges(t)][w := Onward(t, p.out[t.key])] == f.works[w := Onward(t, p.out[t.key])];
    assert t == Tok(t.key, t.again);
    DoneGrows(f.ended, t);
  }

  lemma DoneGrows(ended: set<Tok>, t: Tok)
    ensures forall k :: Done(ended + {t}, k) <==> Done(ended, k) || k == t.key
  {
    assert t == Tok(t.key, false) || t == Tok(t.key, true);
  }

  lemma MatchRelease(p: Plan, s: State, f: Fine, w: nat, u: Key)
    requires Match(p, s, f) && Enabled(p, s, Release(w, u)) && s.wait[u] != 1
    ensures Can(p, f, Count(w, u)) && Match(p, Next(p, s, Release(w, u)), Do(p, f, Count(w, u)))
    ensures SameExtras(|s.jobs|, f, Do(p, f, Count(w, u)))
  {
    JobMatches(p, s, f, w);
    var t, todo := f.works[w].tok, f.works[w].todo - {u};
    OnwardMatches(t, todo);
    UpdateMatches(s.jobs, f.works, w, AfterRelease(t.key, todo), Onward(t, todo));
    hide SameJobs, SameQueue, HeadGoes, AfterRelease, Onward, Done;
  }

  /** A release to zero: count, take the child out, put it in front. */
  lemma MatchZero(p: Plan, s: State, f: Fine, w: nat, u: Key)
    requires Match(p, s, f) && Enabled(p, s, Release(w, u)) && s.wait[u] == 1 && !Enabled(p, s, Dispatch)
    ensures Can(p, f, Count(w, u))
    ensures var g := Do(p, f, Count(w, u)); Can(p, g, Lift(w))
    ensures var g := Do(p, Do(p, f, Count(w, u)), Lift(w));
            Can(p, g, Drop(w)) && Match(p, Next(p, s, Release(w, u)), Do(p, g, Drop(w)))
            && SameExtras(|s.jobs|, f, Do(p, g, Drop(w)))
  {
    JobMatches(p, s, f, w);
    FreeLock(p, s, f);
    var t, todo := f.works[w].tok, f.works[w].todo - {u};
    OnwardMatches(t, todo);
    UpdateMatches(s.jobs, f.works, w, AfterRelease(t.key, todo), Onward(t, todo));
    assert LockFree(Do(p, f, Count(w, u)));
    hide SameJobs, SameQueue, HeadGoes, AfterRelease, Onward, Done, LockFree;
    assert f.works[w := Lifts(t, todo, u)][w := Drops(t, todo, u)][w := Onward(t, todo)] == f.works[w := Onward(t, todo)];
  }

  lemma MatchDispatch(p: Plan, s: State, f: Fine)
    requires Match(p, s, f) && Enabled(p, s, Dispatch) && f.master.Passing?
    ensures Can(p, f, Send)
    ensures var g := Do(p, f, Send);
            && g.master.Passing? && SameExtras(|s.jobs|, f, g)
            && Match(p, Next(p, s, Dispatch), if HeadGoes(g) then g else g.(master := Watching))
            && (!HeadGoes(g) && (forall u | u in s.list :: u in s.colour) ==> Can(p, g, Leave))
  {
    hide SameJobs, Done;
  }

  lemma MatchEntry(p: Plan, s: State, f: Fine)
    requires Match(p, s, f) && Enabled(p, s, Dispatch) && f.master.Watching?
    ensures Can(p, f, Look) && Can(p, Do(p, f, Look), Enter)
    ensures var g := Do(p, Do(p, f, Look), Enter); Match(p, s, g) && g.master.Passing? && g.works == f.works && g.sent == f.sent
  {
    forall w | 0 <= w < |f.works| ensures !f.works[w].Drops? {
      if w < |s.jobs| { assert SameJob(s.jobs[w], f.works[w]); }
    }
    hide SameJobs, Done, SameQueue;
  }

  // ---------- runs ----------

  lemma EnterPass(p: Plan, s: State, n: nat, moves: seq<Move>) returns (more: seq<Move>)
    requires Follow(p, n, moves).Reached? && Match(p, s, Follow(p, n, moves).fine) && Enabled(p, s, Dispatch)
    ensures Follow(p, n, more).Reached? && Match(p, s, Follow(p, n, more).fine)
    ensures Follow(p, n, more).fine.master.Passing? && Follow(p, n, more).fine.works == Follow(p, n, moves).fine.works
    ensures Follow(p, n, more).fine.sent == Follow(p, n, moves).fine.sent
  {
    hide Match, Follow, Can, Do, Enabled;
    var f := Follow(p, n, moves).fine;
    MasterPlace(p, s, f);
    if f.master.Passing? {
      more := moves;
    } else {
      MatchEntry(p, s, f);
      Extend(p, n, moves, Look);
      Extend(p, n, moves + [Look], Enter);
      more := moves + [Look] + [Enter];
    }
  }

  lemma MasterPlace(p: Plan, s: State, f: Fine)
    requires Match(p, s, f)
    ensures f.master.Passing? || f.master.Watching?
  {}

  lemma RunDispatch(p: Plan, s: State, n: nat, moves: seq<Move>) returns (more: seq<Move>)
    requires Follow(p, n, moves).Reached? && Match(p, s, Follow(p, n, moves).fine) && Enabled(p, s, Dispatch)
    requires forall u | u in s.list :: u in s.colour
    ensures Follow(p, n, more).Reached? && Match(p, Next(p, s, Dispatch), Follow(p, n, more).fine)
    ensures SameExtras(|s.jobs|, Follow(p, n, moves).fine, Follow(p, n, more).fine)
  {
    hide Match, Follow, Can, Enabled, Next, HeadGoes;
    var begin := EnterPass(p, s, n, moves);
    var f := Follow(p, n, begin).fine;
    MatchDispatch(p, s, f);
    Extend(p, n, begin, Send);
    more := begin + [Send];
    var g := Do(p, f, Send);
    hide Do;
    if !HeadGoes(g) {
      Extend(p, n, more, Leave);
      more := more + [Leave];
      LeaveWatches(p, g);
    }
  }

  lemma LeaveWatches(p: Plan, g: Fine)
    requires Can(p, g, Leave)
    ensures Do(p, g, Leave) == g.(master := Watching)
  {}

  /** A polite step of the atomic system is a sequence of moves of the locked one. */
  lemma RunStep(p: Plan, s: State, step: Step, n: nat, moves: seq<Move>) returns (more: seq<Move>)
    requires Follow(p, n, moves).Reached? && Match(p, s, Follow(p, n, moves).fine) && Polite(p, s, step)
    requires forall u | u in s.list :: u in s.colour
    ensures Follow(p, n, more).Reached? && Match(p, Next(p, s, step), Follow(p, n, more).fine)
    ensures SameExtras(|s.jobs|, Follow(p, n, moves).fine, Follow(p, n, more).fine)
  {
    hide Match, Follow, Can, Do, Next, HeadGoes, SameExtras;
    var f := Follow(p, n, moves).fine;
    match step
    case Dispatch =>
      more := RunDispatch(p, s, n, moves);
    case Take(w) =>
      MatchTake(p, s, f, w);
      Extend(p, n, moves, Pop(w));
      more := moves + [Pop(w)];
    case Complete(w) =>
      MatchComplete(p, s, f, w);
      Extend(p, n, moves, Whiten(w));
      Extend(p, n, moves + [Whiten(w)], Purge(w));
      more := moves + [Whiten(w)] + [Purge(w)];
    case Release(w, u) =>
      if s.wait[u] != 1 {
        MatchRelease(p, s, f, w, u);
        Extend(p, n, moves, Count(w, u));
        more := moves + [Count(w, u)];
      } else {
        MatchZero(p, s, f, w, u);
        Extend(p, n, moves, Count(w, u));
        Extend(p, n, moves + [Count(w, u)], Lift(w));
        Extend(p, n, moves + [Count(w, u)] + [Lift(w)], Drop(w));
        more := moves + [Count(w, u)] + [Lift(w)] + [Drop(w)];
      }
  }
}
