/** What every interleaving of the locked stage keeps, and what more it keeps when no node waits
    for another. */
module FineSafety {
  import opened Colours
  import opened Lists
  import opened Scheduling
  import opened SchedulingInvariant
  import opened FineScheduling
  import opened FineInvariant

  // ---------- how often a recipe runs ----------

  /** No outdated node has an outdated prerequisite. */
  ghost predicate Flat(p: Plan)
    requires Domains(p)
  {
    forall u | u in p.list :: p.colour[u] != Black
  }

  lemma SentAgainWasBlack(p: Plan, f: Fine, k: Key)
    requires Prepared(p) && FineInv(p, f) && Tok(k, true) in f.sent
    ensures k in p.list && k in p.colour && p.colour[k] == Black
  {
    hide Prepared, FineInv;
    SentAgain(p, f, k);
    ListedNotWhite(p, k);
  }

  lemma Happened(log: seq<Event>, begun: set<Tok>, ended: set<Tok>, k: Key)
    requires Chronicled(log, begun, ended)
    ensures Began(k) in log <==> Tok(k, false) in begun || Tok(k, true) in begun
    ensures Ended(k) in log <==> Tok(k, false) in ended || Tok(k, true) in ended
  {
    assert multiset(log)[Began(k)] == Tally(begun, k) && multiset(log)[Ended(k)] == Tally(ended, k);
    hide Chronicled;
    assert Began(k) in log <==> Began(k) in multiset(log);
    assert Ended(k) in log <==> Ended(k) in multiset(log);
  }

  lemma OnceEach<T>(s: seq<T>)
    requires forall x :: multiset(s)[x] <= 1
    ensures NoDup(s)
  {
    forall i, j | 0 <= i < j < |s| ensures s[i] != s[j] {
      TwoPlaces(s, i, j);
    }
  }

  lemma TwoPlaces<T>(s: seq<T>, i: nat, j: nat)
    requires i < j < |s|
    ensures s[i] == s[j] ==> multiset(s)[s[i]] >= 2
  {
    assert s == s[..j] + ([s[j]] + s[j + 1..]);
    assert s[..j][i] == s[i];
    assert s[i] in multiset(s[..j]);
    assert multiset([s[j]] + s[j + 1..]) == multiset{s[j]} + multiset(s[j + 1..]);
  }

  lemma {:induction false} NoDupCounts<T>(s: seq<T>, x: T)
    requires NoDup(s)
    ensures multiset(s)[x] <= 1
  {
    if s != [] {
      var front, last := s[..|s| - 1], s[|s| - 1];
      NoDupCounts(front, x);
      assert s == front + [last];
      assert last !in front;
      assert last !in multiset(front);
    }
  }

  /** In every interleaving a recipe starts at most twice, and only once unless its node was BLACK
      after preprocessing; it ends no more often than it starts. */
  lemma AtMostTwice(p: Plan, n: nat, moves: seq<Move>, k: Key)
    requires Prepared(p) && Follow(p, n, moves).Reached?
    ensures var log := Follow(p, n, moves).fine.log;
            && multiset(log)[Ended(k)] <= multiset(log)[Began(k)] <= 2
            && (multiset(log)[Began(k)] == 2 ==> k in p.list && k in p.colour && p.colour[k] == Black)
  {
    AlwaysFine(p, n, moves);
    var f := Follow(p, n, moves).fine;
    hide Prepared, Follow, Counted, Places, Ordered, Passed, Shaded, Working, Carried, Waiting;
    if Tok(k, true) in f.begun { SentAgainWasBlack(p, f, k); }
  }

  lemma {:induction false} FlatRunsOnce(p: Plan, n: nat, moves: seq<Move>)
    requires Prepared(p) && Flat(p) && Follow(p, n, moves).Reached?
    ensures NoDup(Follow(p, n, moves).fine.log)
  {
    var log := Follow(p, n, moves).fine.log;
    hide Follow;
    forall e: Event ensures multiset(log)[e] <= 1 {
      AtMostTwice(p, n, moves, e.key);
      assert e == Began(e.key) || e == Ended(e.key);
      hide Prepared;
    }
    OnceEach(log);
  }

  // ---------- the end of a run ----------

  lemma UnreadyUnsent(p: Plan, f: Fine, u: Key)
    requires FineInv(p, f) && !Ready(p, f.wait, u)
    ensures Tok(u, false) !in f.sent && Tok(u, true) !in f.sent && u !in f.moved
  {
    LiftedAreZeroed(p, f);
    MovedWasLifted(p, f, u);
    hide Counted, Places, Ordered, Passed, Shaded,
         Waiting, Chronicled, Working, Carried;
    assert Tok(u, false).key == u && Tok(u, true).key == u;
  }

  lemma QuietMeansEnded(p: Plan, f: Fine)
    requires FineInv(p, f) && Quiet(f)
    ensures f.sent == f.begun == f.ended
    ensures forall t, u | t in f.ended && t.key in p.out && u in p.out[t.key] :: (t, u) in f.released
  {
    hide Counted, Places, Ordered, Passed, Shaded, Carried, Chronicled;
    assert forall t :: !Holds(f.works, t);
  }

  /** When the stage is over, every node that was GREY from the start has run and is WHITE, every
      recipe that started has ended, and no up-to-date node has run. */
  lemma GreysRun(p: Plan, n: nat, moves: seq<Move>, u: Key)
    requires Prepared(p) && Follow(p, n, moves).Reached? && Over(Follow(p, n, moves).fine)
    ensures var f := Follow(p, n, moves).fine;
            && (u in p.list && p.colour[u] == Grey ==> Ended(u) in f.log && u in f.colour && f.colour[u] == White)
            && (u in p.order && u !in p.list ==> Began(u) !in f.log && u in f.colour && f.colour[u] == White)
            && multiset(f.log)[Began(u)] == multiset(f.log)[Ended(u)]
  {
    AlwaysFine(p, n, moves);
    var f := Follow(p, n, moves).fine;
    hide Follow;
    QuietMeansEnded(p, f);
    Happened(f.log, f.begun, f.ended, u) by { hide Prepared; }
    hide Topological, BlacksInOrder, Stale, Counts, NoDup, GreysFirst;
    hide Counted, Places, Ordered, Passed, Working, Waiting;
    assert Tok(u, true).key == u && Tok(u, false).key == u;
  }

  // ---------- early starts ----------

  /** `u` can be dispatched twice, and so count `c` down twice, before `v` has ended: no BLACK node
      up to `u` in the list waits for `v`. */
  ghost predicate Overtakes(p: Plan, c: Key, v: Key, u: Key) {
    && c in p.list && v in Stale(p, c) && u in Stale(p, c) && u != v
    && u in p.colour && p.colour[u] == Black
    && forall y | UpTo(p, y, u) :: v !in Stale(p, y)
  }

  ghost predicate Risky(p: Plan) {
    exists c, v, u :: Overtakes(p, c, v, u)
  }

  ghost predicate Done(ended: set<Tok>, k: Key) {
    Tok(k, false) in ended || Tok(k, true) in ended
  }

  /** An outdated node is ready only when its outdated prerequisites have ended. */
  ghost predicate Patient(p: Plan, wait: map<Key, int>, ended: set<Tok>) {
    forall c, v | c in p.list && Ready(p, wait, c) && v in Stale(p, c) :: Done(ended, v)
  }

  /** Every outdated node starts after all its outdated prerequisites have ended. */
  ghost predicate Timely(p: Plan, log: seq<Event>) {
    forall i, q | 0 <= i < |log| && log[i].Began? && log[i].key in p.list && q in Stale(p, log[i].key) ::
      Ended(q) in log[..i]
  }

  lemma {:induction false} FirstsByKey(toks: set<Tok>)
    requires forall t | t in toks :: !t.again
    ensures |set t | t in toks :: t.key| == |toks|
  {
    if toks != {} {
      var t :| t in toks;
      FirstsByKey(toks - {t});
      assert (set x | x in toks :: x.key) == (set x | x in toks - {t} :: x.key) + {t.key};
      assert forall x | x in toks - {t} :: x.key != t.key;
    }
  }

  /** If `c` is counted to zero before `v` has ended, some prerequisite counted it down twice. */
  lemma SomeoneTwice(stale: set<Key>, releasers: set<Tok>, v: Key) returns (t: Tok)
    requires v in stale && |releasers| == |stale| && forall t | t in releasers :: t.key in stale && t.key != v
    ensures t in releasers && t.again
  {
    if x :| x in releasers && x.again {
      t := x;
    } else {
      FirstsByKey(releasers);
      var keys := set t | t in releasers :: t.key;
      SubsetCard(keys, stale - {v});
      assert false;
    }
  }

  lemma ZeroedTooSoon(p: Plan, f: Fine, g: Fine, c: Key, v: Key)
    requires Prepared(p) && FineInv(p, g) && Patient(p, f.wait, f.ended) && Passed(p, f.wait, f.inPlace)
    requires g.inPlace == f.inPlace && g.ended == f.ended
    requires c in p.list && p.colour[c] == Black && c in g.wait && g.wait[c] == 0 && v in Stale(p, c) && !Done(g.ended, v)
    ensures Risky(p)
  {
    var releasers := Releasers(g.released, c);
    hide FineInv, Prepared, Patient, Passed, Stale, Releasers;
    ListedInOrder(p);
    CounterFacts(p, g, c);
    var t := SomeoneTwice(Stale(p, c), releasers, v);
    assert t == Tok(t.key, true);
    TokenSent(p, g, t);
    SentAgain(p, g, t.key);
    SentAgainWasBlack(p, g, t.key);
    forall y | UpTo(p, y, t.key) ensures v !in Stale(p, y) {
      assert Ready(p, f.wait, y) by { assert Passed(p, f.wait, f.inPlace); PassedAt(p, f.wait, f.inPlace, t.key, y); }
      if v in Stale(p, y) { PatientAt(p, f.wait, f.ended, y, v); }
    }
    assert Overtakes(p, c, v, t.key);
  }

  lemma PassedAt(p: Plan, wait: map<Key, int>, inPlace: set<Key>, u: Key, y: Key)
    requires Passed(p, wait, inPlace) && u in inPlace && UpTo(p, y, u)
    ensures Ready(p, wait, y) && y in p.list
  {
    hide Ready;
  }

  lemma PatientAt(p: Plan, wait: map<Key, int>, ended: set<Tok>, c: Key, v: Key)
    requires Patient(p, wait, ended) && c in p.list && Ready(p, wait, c) && v in Stale(p, c)
    ensures Done(ended, v)
  {
    hide Ready, Stale;
  }

  lemma TokenSent(p: Plan, f: Fine, t: Tok)
    requires FineInv(p, f) && t in f.ended
    ensures t in f.sent
  {
    hide Counted, Places, Ordered, Passed, Shaded, Chronicled, Working, Carried, Waiting;
  }

  /** The counter of a collected node, where it is set, is the number of its outdated prerequisites
      less the number of their dispatches that have released it. */
  lemma CounterFacts(p: Plan, f: Fine, u: Key)
    requires Prepared(p) && FineInv(p, f) && u in p.order && Counts(p, u)
    ensures u in f.wait && f.wait[u] == |Stale(p, u)| - |Releasers(f.released, u)|
    ensures forall t | t in Releasers(f.released, u) :: t in f.ended && t.key in Stale(p, u)
  {
    InitialCounter(p, u) by { hide FineInv, Prepared; }
    forall t | t in Releasers(f.released, u) ensures t in f.ended && t.key in Stale(p, u) {
      ReleaserFacts(p, f, t, u);
    }
    hide Prepared, Releasers, Stale;
    hide Places, Ordered, Passed, Shaded, Chronicled, Working, Carried, Waiting;
  }

  lemma ReleaserFacts(p: Plan, f: Fine, t: Tok, u: Key)
    requires Prepared(p) && FineInv(p, f) && u in p.order && t in Releasers(f.released, u)
    ensures t in f.ended && t.key in Stale(p, u)
  {
    hide Prepared, Stale;
    hide Places, Ordered, Passed, Shaded, Chronicled, Working, Carried, Waiting, Sendings;
    assert (t, u) in f.released;
    CountedWasBlack(p, f, t, u);
  }

  lemma CounterInEveryFineRun(p: Plan, n: nat, moves: seq<Move>, u: Key)
    requires Prepared(p) && Follow(p, n, moves).Reached? && u in p.order && Counts(p, u)
    ensures var f := Follow(p, n, moves).fine;
            && u in f.wait && f.wait[u] == |Stale(p, u)| - |Releasers(f.released, u)|
            && (forall t | t in Releasers(f.released, u) :: t.key in Stale(p, u) && Ended(t.key) in f.log)
  {
    hide Prepared, Stale, Releasers;
    AlwaysFine(p, n, moves);
    var f := Follow(p, n, moves).fine;
    hide Follow;
    CounterFacts(p, f, u);
    hide Counted, Places, Ordered, Passed, Shaded, Working, Carried, Waiting, Sendings;
    hide Chronicled;
    forall t | t in Releasers(f.released, u) ensures Ended(t.key) in f.log {
      Happened(f.log, f.begun, f.ended, t.key);
      assert t == Tok(t.key, t.again);
    }
  }

  lemma PatientCount(p: Plan, f: Fine, w: nat, u: Key)
    requires Prepared(p) && !Risky(p) && FineInv(p, f) && Can(p, f, Count(w, u)) && Patient(p, f.wait, f.ended)
    ensures Patient(p, Do(p, f, Count(w, u)).wait, f.ended)
  {
    hide Prepared, FineInv, Risky, Stale, Ready, Passed;
    var g := Do(p, f, Count(w, u));
    MoveInv(p, f, Count(w, u));
    CountedNode(p, f, w, u);
    PassedOf(p, f);
    assert g.inPlace == f.inPlace && g.ended == f.ended && g.wait == f.wait[u := f.wait[u] - 1];
    hide Can, Do;
    forall c, v | c in p.list && Ready(p, g.wait, c) && v in Stale(p, c) ensures Done(f.ended, v) {
      if Ready(p, f.wait, c) {
        PatientAt(p, f.wait, f.ended, c, v);
      } else if !Done(f.ended, v) {
        ZeroedTooSoon(p, f, g, c, v);
      }
    }
  }

  lemma PatientMove(p: Plan, f: Fine, move: Move)
    requires Prepared(p) && !Risky(p) && FineInv(p, f) && Can(p, f, move) && Patient(p, f.wait, f.ended)
    ensures var g := Do(p, f, move); Patient(p, g.wait, g.ended)
  {
    hide Prepared, FineInv, Risky, Stale, Ready, LockFree, HeadGoes, HeadStays;
    if move.Count? {
      PatientCount(p, f, move.worker, move.u);
      hide Patient;
      assert Do(p, f, move).ended == f.ended;
    } else {
      SameCounters(p, f, move);
      PatientMore(p, f.wait, f.ended, Do(p, f, move).ended);
    }
  }

  lemma PatientMore(p: Plan, wait: map<Key, int>, ended: set<Tok>, more: set<Tok>)
    requires Patient(p, wait, ended) && ended <= more
    ensures Patient(p, wait, more)
  {
    hide Ready, Stale;
    forall c, v | c in p.list && Ready(p, wait, c) && v in Stale(p, c) ensures Done(more, v) {
      PatientAt(p, wait, ended, c, v);
    }
  }

  lemma SameCounters(p: Plan, f: Fine, move: Move)
    requires Can(p, f, move) && !move.Count?
    ensures var g := Do(p, f, move); g.wait == f.wait && f.ended <= g.ended
  {
    hide LockFree, HeadGoes, HeadStays;
  }

  lemma PassedOf(p: Plan, f: Fine)
    requires FineInv(p, f)
    ensures Passed(p, f.wait, f.inPlace)
  {
    hide Counted, Places, Ordered, Passed, Shaded, Chronicled, Working, Carried, Waiting;
  }

  /** The node that a move counts down: nothing else becomes ready. */
  lemma CountedNode(p: Plan, f: Fine, w: nat, u: Key)
    requires Prepared(p) && FineInv(p, f) && Can(p, f, Count(w, u))
    ensures var later := f.wait[u := f.wait[u] - 1];
            forall v :: Ready(p, later, v) <==> Ready(p, f.wait, v) || (v == u && f.wait[u] == 1)
    ensures u in p.list ==> p.colour[u] == Black
  {
    hide Prepared, Ready, Zeroed, Places, Ordered, Passed, Shaded, Chronicled, Working, Carried, Waiting, Sendings, Counted;
    WorkAt(p, f, w);
    CountedWasBlack(p, f, f.works[w].tok, u);
    ListedInOrder(p);
    CountReady(p, f.wait, f.released, f.ended, u);
  }

  lemma ListedInOrder(p: Plan)
    requires Prepared(p)
    ensures forall u | u in p.list :: u in p.order && u in p.colour && u in p.out
  {
    hide Topological, Coloured, BlacksInOrder;
  }

  lemma TimelyGrows(p: Plan, log: seq<Event>, e: Event)
    requires Timely(p, log)
    requires e.Began? && e.key in p.list ==> forall q | q in Stale(p, e.key) :: Ended(q) in log
    ensures Timely(p, log + [e])
  {
    hide Stale;
    var more := log + [e];
    assert more[..|log|] == log;
    forall i, q | 0 <= i < |more| && more[i].Began? && more[i].key in p.list && q in Stale(p, more[i].key)
      ensures Ended(q) in more[..i]
    {
      if i < |log| { assert more[..i] == log[..i]; }
    }
  }

  lemma TimelyMove(p: Plan, f: Fine, move: Move)
    requires FineInv(p, f) && Can(p, f, move) && Patient(p, f.wait, f.ended) && Timely(p, f.log)
    ensures Timely(p, Do(p, f, move).log)
  {
    hide Timely, Patient, Stale, Ready;
    hide Counted, Places, Ordered, Passed, Shaded, Working, Carried, Chronicled;
    match move
    case Pop(w) =>
      var t := f.queue[0];
      if t.key in p.list {
        forall q | q in Stale(p, t.key) ensures Ended(q) in f.log {
          PatientAt(p, f.wait, f.ended, t.key, q);
          Happened(f.log, f.begun, f.ended, q);
        }
      }
      TimelyGrows(p, f.log, Began(t.key));
    case Whiten(w) => TimelyGrows(p, f.log, Ended(f.works[w].tok.key));
    case Look => case Enter => case Send => case Leave => case Purge(w) => case Count(w, u) =>
    case Lift(w) => case Drop(w) => case Crash(w) =>
  }

  lemma StartsPatient(p: Plan, n: nat)
    requires Prepared(p)
    ensures Patient(p, Start(p, n).wait, {}) && Timely(p, [])
  {
    hide Topological, BlacksInOrder, NoDup, GreysFirst, Counts;
    assert forall c | c in p.list && Ready(p, p.wait, c) :: Stale(p, c) == {};
  }

  lemma {:induction false} SafeRun(p: Plan, n: nat, moves: seq<Move>)
    requires Prepared(p) && !Risky(p) && Follow(p, n, moves).Reached?
    ensures var f := Follow(p, n, moves).fine; Patient(p, f.wait, f.ended) && Timely(p, f.log)
  {
    hide Prepared, Risky, Patient, Timely, Do, Can, FineInv;
    if moves == [] {
      StartsPatient(p, n);
    } else {
      var front, move := moves[..|moves| - 1], moves[|moves| - 1];
      SafeRun(p, n, front);
      AlwaysFine(p, n, front);
      PatientMove(p, Follow(p, n, front).fine, move);
      TimelyMove(p, Follow(p, n, front).fine, move);
    }
  }
}
