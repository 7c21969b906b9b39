/** The invariant of the scheduling stage at the grain of its locks. */
module FineInvariant {
  import opened Colours
  import opened Lists
  import opened Scheduling
  import opened FineScheduling
  import opened SchedulingInvariant

  /** The dispatches that have counted `u` down. */
  ghost function Releasers(released: set<(Tok, Key)>, u: Key): set<Tok> {
    set r | r in released && r.1 == u :: r.0
  }

  /** A counter is its initial value less the number of dispatches that released the node. */
  ghost predicate Counted(p: Plan, wait: map<Key, int>, released: set<(Tok, Key)>, ended: set<Tok>) {
    && Domains(p) && wait.Keys == p.out.Keys
    && (forall u | u in p.out :: wait[u] == p.wait[u] - |Releasers(released, u)|)
    && (forall t, u | (t, u) in released :: t in ended && t.key in p.out && u in p.out[t.key])
  }

  /** Only ready nodes are sent, and among the collected ones only outdated ones. */
  ghost predicate Sendings(p: Plan, wait: map<Key, int>, sent: set<Tok>, begun: set<Tok>, ended: set<Tok>) {
    && ended <= begun <= sent
    && forall t | t in sent :: t.key in p.out && Ready(p, wait, t.key) && (t.key in p.order ==> t.key in p.list)
  }

  ghost predicate Waiting(queue: seq<Tok>, sent: set<Tok>, begun: set<Tok>) {
    NoDup(queue) && forall t :: t in queue <==> t in sent && t !in begun
  }

  /** `u` waits in the list where preprocessing put it. */
  ghost predicate Untouched(p: Plan, sent: set<Tok>, lifted: set<Key>, u: Key) {
    u in p.list && u !in lifted && Tok(u, false) !in sent
  }

  /** Where a node can be: sent at most once from its original place, moved at most once, sent at
      most once after that. */
  ghost predicate Places(p: Plan, wait: map<Key, int>, list: seq<Key>, sent: set<Tok>,
                         lifted: set<Key>, moved: set<Key>, inPlace: set<Key>) {
    && NoDup(list) && moved <= lifted
    && (forall u | u in lifted :: Zeroed(p, wait, u))
    && (forall u | u in inPlace :: Tok(u, false) in sent && u in p.list)
    && (forall u | Tok(u, false) in sent && u !in moved :: u in inPlace)
    && (forall u | Tok(u, true) in sent :: u in moved && u in inPlace)
    && (forall u | u in list :: Untouched(p, sent, lifted, u) || (u in moved && Tok(u, true) !in sent))
    && (forall u | u in list && Tok(u, false) in sent :: u in inPlace)
    && (forall u | Untouched(p, sent, lifted, u) || (u in moved && Tok(u, false) !in sent) :: u in list)
  }

  /** The counter of `u` has been brought to zero. */
  ghost predicate Zeroed(p: Plan, wait: map<Key, int>, u: Key) {
    u in p.out && Ready(p, wait, u) && p.colour[u] != Grey
  }

  /** Moved nodes come first; the others stand in the list as preprocessing ordered them. */
  ghost predicate Ordered(p: Plan, list: seq<Key>, moved: set<Key>) {
    forall i, j | 0 <= i < j < |list| && list[i] !in moved :: list[j] !in moved && Before(p.list, list[i], list[j])
  }

  /** BLACK node `y` stands at or before `u` in the list that preprocessing made. */
  ghost predicate UpTo(p: Plan, y: Key, u: Key) {
    y in p.colour && p.colour[y] == Black && y in p.list && (y == u || Before(p.list, y, u))
  }

  /** A pass reaches a node in its original place only after every BLACK node up to there is ready. */
  ghost predicate Passed(p: Plan, wait: map<Key, int>, inPlace: set<Key>) {
    forall u, y | u in inPlace && UpTo(p, y, u) :: Ready(p, wait, y)
  }

  ghost predicate Shaded(p: Plan, colour: map<Key, Colour>, wait: map<Key, int>, ended: set<Tok>) {
    && Domains(p) && colour.Keys == p.out.Keys
    && (forall u | u in p.out :: colour[u] == Black <==> p.colour[u] == Black && !Ready(p, wait, u))
    && (forall u | u in p.order && p.colour[u] != Black ::
          colour[u] == if p.colour[u] == Grey && Tok(u, false) !in ended then Grey else White)
  }

  /** `todo` holds the children that `t` has still to count down. */
  ghost predicate Todo(p: Plan, released: set<(Tok, Key)>, t: Tok, todo: set<Key>) {
    t.key in p.out && forall u :: u in todo <==> u in p.out[t.key] && (t, u) !in released
  }

  ghost predicate WorkOk(p: Plan, wait: map<Key, int>, work: Work, begun: set<Tok>, ended: set<Tok>,
                         released: set<(Tok, Key)>, lifted: set<Key>, moved: set<Key>) {
    match work
    case Free => true
    case Runs(t) => t in begun && t !in ended
    case Purges(t) => t in ended && t.key in p.out && Todo(p, released, t, p.out[t.key])
    case Releases(t, todo) => t in ended && todo != {} && Todo(p, released, t, todo)
    case Lifts(t, todo, u) => t in ended && Todo(p, released, t, todo) && Zeroed(p, wait, u) && u !in lifted
    case Drops(t, todo, u) => t in ended && Todo(p, released, t, todo) && u in lifted && u !in moved
  }

  ghost predicate Holds(works: seq<Work>, t: Tok) {
    exists w :: 0 <= w < |works| && !works[w].Free? && works[w].tok == t
  }

  ghost predicate Carries(work: Work, u: Key) {
    (work.Lifts? || work.Drops?) && work.child == u
  }

  /** No dispatch is at two workers, no child is moved by two, and every dispatch that has not ended
      or not counted all children down is at a worker. */
  ghost predicate Working(p: Plan, wait: map<Key, int>, works: seq<Work>, begun: set<Tok>, ended: set<Tok>,
                          released: set<(Tok, Key)>, lifted: set<Key>, moved: set<Key>) {
    && (forall w | 0 <= w < |works| :: WorkOk(p, wait, works[w], begun, ended, released, lifted, moved))
    && (forall v, w | 0 <= v < w < |works| && !works[v].Free? && !works[w].Free? :: works[v].tok != works[w].tok)
    && (forall v, w, u | 0 <= v < w < |works| && Carries(works[v], u) :: !Carries(works[w], u))
    && (forall t | t in begun && t !in ended :: Holds(works, t))
    && (forall t, u | t in ended && t.key in p.out && u in p.out[t.key] && (t, u) !in released :: Holds(works, t))
  }

  /** A node counted to zero has been moved, or some worker is about to move it. */
  ghost predicate Carried(p: Plan, wait: map<Key, int>, works: seq<Work>, moved: set<Key>) {
    forall u | Zeroed(p, wait, u) && u !in moved :: exists w :: 0 <= w < |works| && Carries(works[w], u)
  }

  /** When the master has gone, every node that was GREY from the start has been sent. */
  ghost predicate Farewell(p: Plan, master: Master, sent: set<Tok>) {
    master.Gone? ==> forall u | u in p.list && u in p.colour && p.colour[u] == Grey :: Tok(u, false) in sent
  }

  ghost function Tally(toks: set<Tok>, k: Key): nat {
    (if Tok(k, false) in toks then 1 else 0) + if Tok(k, true) in toks then 1 else 0
  }

  /** The log shows each dispatch that began and each that ended. */
  ghost predicate Chronicled(log: seq<Event>, begun: set<Tok>, ended: set<Tok>) {
    forall k :: multiset(log)[Began(k)] == Tally(begun, k) && multiset(log)[Ended(k)] == Tally(ended, k)
  }

  ghost predicate FineInv(p: Plan, f: Fine) {
    && Shaped(p, f)
    && Counted(p, f.wait, f.released, f.ended)
    && Sendings(p, f.wait, f.sent, f.begun, f.ended)
    && Waiting(f.queue, f.sent, f.begun)
    && Places(p, f.wait, f.list, f.sent, f.lifted, f.moved, f.inPlace)
    && Ordered(p, f.list, f.moved)
    && Passed(p, f.wait, f.inPlace)
    && Shaded(p, f.colour, f.wait, f.ended)
    && Working(p, f.wait, f.works, f.begun, f.ended, f.released, f.lifted, f.moved)
    && Carried(p, f.wait, f.works, f.moved)
    && Farewell(p, f.master, f.sent)
    && Chronicled(f.log, f.begun, f.ended)
  }

  // ---------- the start ----------

  lemma StartInv(p: Plan, n: nat)
    requires Prepared(p)
    ensures FineInv(p, Start(p, n))
  {
    hide Prepared, Counted, Sendings, Waiting, Places, Ordered, Passed, Shaded, Working, Carried, Chronicled;
    StartParts(p);
    StartPlaces(p);
    StartWork(p, n);
    StartLog();
  }

  lemma StartParts(p: Plan)
    requires Prepared(p)
    ensures Counted(p, p.wait, {}, {}) && Shaded(p, p.colour, p.wait, {}) && NoDup(p.list)
    ensures p.colour.Keys == p.wait.Keys == p.out.Keys
  {
    hide Topological, BlacksInOrder, Ready, Releasers, NoDup;
    StartColours(p);
    hide Coloured, Shaded;
    forall u ensures Releasers({}, u) == {} { NoReleasers(u); }
  }

  lemma NoReleasers(u: Key)
    ensures Releasers({}, u) == {}
  {}

  lemma StartPlaces(p: Plan)
    requires NoDup(p.list)
    ensures Places(p, p.wait, p.list, {}, {}, {}, {}) && Ordered(p, p.list, {}) && Passed(p, p.wait, {})
    ensures Sendings(p, p.wait, {}, {}, {}) && Waiting([], {}, {})
  {
    forall i, j | 0 <= i < j < |p.list| ensures Before(p.list, p.list[i], p.list[j]) {}
    hide NoDup, Before, Ready, Zeroed;
    assert NoDup<Tok>([]) by { NoToks(); }
  }

  lemma NoToks()
    ensures NoDup<Tok>([])
  {}

  lemma StartWork(p: Plan, n: nat)
    ensures Working(p, p.wait, Start(p, n).works, {}, {}, {}, {}, {}) && Carried(p, p.wait, Start(p, n).works, {})
  {
    forall u ensures !Zeroed(p, p.wait, u) {}
    hide Zeroed, Ready;
  }

  lemma StartLog()
    ensures Chronicled([], {}, {})
  {
    var none: seq<Event> := [];
    assert multiset(none) == multiset{};
  }

  lemma StartColours(p: Plan)
    requires Domains(p) && Coloured(p)
    ensures Shaded(p, p.colour, p.wait, {}) && NoDup(p.list)
  {
    hide Stale, Counts, NoDup, GreysFirst;
  }

  // ---------- which nodes are counted down ----------

  /** A child that a finished dispatch counts down was BLACK and in the list, if it was collected. */
  lemma CountedWasBlack(p: Plan, f: Fine, t: Tok, u: Key)
    requires Prepared(p) && FineInv(p, f) && t in f.ended && t.key in p.out && u in p.out[t.key]
    ensures u in p.out && u in p.colour && p.colour[u] != Grey
    ensures u in p.order ==> t.key in Stale(p, u) && p.colour[u] == Black && u in p.list
  {
    hide Counted, Places, Ordered, Passed, Shaded, Working, Carried, Waiting, Chronicled, BlacksInOrder;
    assert t in f.sent;
    if u in p.order {
      PrerequisiteCollected(p, t.key, u);
      assert t.key in p.list;
      assert t.key in Stale(p, u);
    }
    hide Topological, Stale;
  }

  lemma NeverCounted(p: Plan, f: Fine, u: Key)
    requires Prepared(p) && FineInv(p, f) && u in p.order && u !in p.list
    ensures Releasers(f.released, u) == {}
  {
    forall t | t in Releasers(f.released, u) ensures false {
      assert (t, u) in f.released;
      CountedWasBlack(p, f, t, u);
    }
  }

  lemma UpToDateStays(p: Plan, f: Fine, u: Key)
    requires Prepared(p) && FineInv(p, f) && u in p.order && Ready(p, f.wait, u)
    ensures u in p.list
  {
    if u !in p.list { NeverCounted(p, f, u); }
    hide Topological, Stale, Places, Ordered, Passed, Shaded, Working, Carried, Waiting, Chronicled, BlacksInOrder;
  }

  // ---------- moves of the master ----------

  lemma BeforeIsStrict<T>(s: seq<T>, x: T, y: T)
    requires NoDup(s) && Before(s, x, y)
    ensures !Before(s, y, x)
  {}

  lemma HeadIsReady(p: Plan, f: Fine)
    requires Prepared(p) && FineInv(p, f) && HeadGoes(f)
    ensures Ready(p, f.wait, f.list[0]) && f.list[0] in p.out && (f.list[0] in p.order ==> f.list[0] in p.list)
  {
    var k := f.list[0];
    assert k in f.list;
    HeadCases(p, f.colour, f.wait, f.list, f.sent, f.lifted, f.moved, f.inPlace, f.ended, k) by {
      hide Counted, Ordered, Passed, Working, Carried, Waiting, Chronicled, BlacksInOrder, Topological;
      assert f.wait.Keys == p.out.Keys by { hide Coloured; }
    }
    if k in p.order { UpToDateStays(p, f, k); }
    hide Prepared, FineInv;
  }

  lemma HeadCases(p: Plan, colour: map<Key, Colour>, wait: map<Key, int>, list: seq<Key>, sent: set<Tok>, lifted: set<Key>,
                  moved: set<Key>, inPlace: set<Key>, ended: set<Tok>, k: Key)
    requires Domains(p) && Coloured(p) && Places(p, wait, list, sent, lifted, moved, inPlace) && Shaded(p, colour, wait, ended)
    requires k in list && k in colour && colour[k] != Black && wait.Keys == p.out.Keys
    ensures Ready(p, wait, k) && k in p.out
  {
    if k !in moved {
      assert Untouched(p, sent, lifted, k);
      assert k in p.out && p.colour[k] != White;
    }
  }

  lemma SendPlaces(p: Plan, wait: map<Key, int>, list: seq<Key>, sent: set<Tok>, lifted: set<Key>, moved: set<Key>, inPlace: set<Key>)
    requires Places(p, wait, list, sent, lifted, moved, inPlace) && list != []
    ensures var k := list[0];
            && Token(sent, k) !in sent
            && Places(p, wait, list[1..], sent + {Token(sent, k)}, lifted, moved, if k in moved then inPlace else inPlace + {k})
  {
    hide Zeroed;
    TailOnce(list);
    hide NoDup;
    assert list[0] in list;
  }

  lemma TailOnce<T>(s: seq<T>)
    requires NoDup(s) && s != []
    ensures NoDup(s[1..]) && forall x :: x in s[1..] <==> x in s && x != s[0]
  {}

  lemma SendPassed(p: Plan, wait: map<Key, int>, list: seq<Key>, sent: set<Tok>, lifted: set<Key>, moved: set<Key>, inPlace: set<Key>)
    requires Places(p, wait, list, sent, lifted, moved, inPlace) && Ordered(p, list, moved) && Passed(p, wait, inPlace)
    requires list != [] && NoDup(p.list) && Ready(p, wait, list[0])
    requires forall t | t in sent :: Ready(p, wait, t.key)
    ensures Passed(p, wait, if list[0] in moved then inPlace else inPlace + {list[0]})
    ensures Ordered(p, list[1..], moved)
  {
    var k := list[0];
    if k !in moved {
      forall y | UpTo(p, y, k) && !Ready(p, wait, y) ensures false {
        assert Untouched(p, sent, lifted, y);
        var j :| 0 <= j < |list| && list[j] == y;
        assert j > 0 && Before(p.list, k, y);
        BeforeIsStrict(p.list, y, k);
      }
    }
  }

  lemma SentReady(p: Plan, f: Fine)
    requires Prepared(p) && FineInv(p, f)
    ensures NoDup(p.list) && forall t | t in f.sent :: Ready(p, f.wait, t.key)
  {
    hide Topological, Stale, Places, Ordered, Passed, Shaded, Working, Carried, Waiting, Chronicled, BlacksInOrder, Counted, NoDup, Ready;
  }

  lemma SendInv(p: Plan, f: Fine)
    requires Prepared(p) && FineInv(p, f) && Can(p, f, Send)
    ensures FineInv(p, Do(p, f, Send))
  {
    hide Prepared, Counted, Places, Ordered, Passed, Shaded, Working, Carried, Chronicled, Waiting, Ready, NoDup;
    HeadIsReady(p, f);
    SentReady(p, f);
    SendPlaces(p, f.wait, f.list, f.sent, f.lifted, f.moved, f.inPlace);
    SendPassed(p, f.wait, f.list, f.sent, f.lifted, f.moved, f.inPlace);
    SendQueue(f.queue, f.sent, f.begun, Token(f.sent, f.list[0]));
    assert Token(f.sent, f.list[0]).key == f.list[0];
    hide Token;
  }

  lemma SendQueue(queue: seq<Tok>, sent: set<Tok>, begun: set<Tok>, t: Tok)
    requires Waiting(queue, sent, begun) && t !in sent && begun <= sent
    ensures Waiting(queue + [t], sent + {t}, begun)
  {
    assert forall x :: x in queue + [t] <==> x in queue || x == t;
  }

  lemma LookInv(p: Plan, f: Fine)
    requires Prepared(p) && FineInv(p, f) && Can(p, f, Look)
    ensures FineInv(p, Do(p, f, Look))
  {
    hide Prepared, Counted, Ordered, Passed, Shaded, Working, Carried, Chronicled, Waiting, Sendings;
    if f.list == [] {
      forall u | u in p.list && u in p.colour && p.colour[u] == Grey ensures Tok(u, false) in f.sent {
        assert !Untouched(p, f.sent, f.lifted, u);
      }
    }
    hide Places, Ready;
  }

  // ---------- moves of the workers ----------

  lemma HoldsKept(works: seq<Work>, w: nat, work: Work, t: Tok)
    requires w < |works| && Holds(works, t)
    requires works[w].Free? || works[w].tok != t || (!work.Free? && work.tok == t)
    ensures Holds(works[w := work], t)
  {
    var v :| 0 <= v < |works| && !works[v].Free? && works[v].tok == t;
    assert v != w ==> works[w := work][v] == works[v];
    assert works[w := work][w] == work;
  }

  /** Carried children stay carried when one worker changes, unless its child has been moved. */
  lemma CarriedKept(p: Plan, wait: map<Key, int>, later: map<Key, int>, works: seq<Work>, w: nat, work: Work,
                    moved: set<Key>, more: set<Key>)
    requires Carried(p, wait, works, moved) && w < |works| && moved <= more
    requires forall u | Zeroed(p, later, u) :: Zeroed(p, wait, u) || Carries(work, u)
    requires forall u | Carries(works[w], u) :: Carries(work, u) || u in more
    ensures Carried(p, later, works[w := work], more)
  {
    hide Zeroed, Carries;
    var after := works[w := work];
    forall u | Zeroed(p, later, u) && u !in more ensures exists x :: 0 <= x < |after| && Carries(after[x], u) {
      if Carries(work, u) {
        assert Carries(after[w], u);
      } else {
        var x :| 0 <= x < |works| && Carries(works[x], u);
        assert after[x] == works[x];
      }
    }
  }

  lemma LogGrows(log: seq<Event>, begun: set<Tok>, ended: set<Tok>, t: Tok, e: Event)
    requires Chronicled(log, begun, ended) && e.key == t.key && t !in (if e.Began? then begun else ended)
    ensures Chronicled(log + [e], if e.Began? then begun + {t} else begun, if e.Began? then ended else ended + {t})
  {
    assert t == Tok(t.key, false) || t == Tok(t.key, true);
    assert multiset(log + [e]) == multiset(log) + multiset{e};
  }

  lemma PopQueue(queue: seq<Tok>, sent: set<Tok>, begun: set<Tok>)
    requires Waiting(queue, sent, begun) && queue != []
    ensures Waiting(queue[1..], sent, begun + {queue[0]})
    ensures queue[0] in sent && queue[0] !in begun
  {
    assert forall t :: t in queue[1..] <==> t in queue && t != queue[0];
  }

  lemma PopWork(p: Plan, f: Fine, w: nat, t: Tok)
    requires Working(p, f.wait, f.works, f.begun, f.ended, f.released, f.lifted, f.moved) && f.ended <= f.begun
    requires w < |f.works| && f.works[w].Free? && t !in f.begun
    ensures Working(p, f.wait, f.works[w := Runs(t)], f.begun + {t}, f.ended, f.released, f.lifted, f.moved)
  {
    hide Todo, Zeroed;
    var works := f.works[w := Runs(t)];
    forall v | 0 <= v < |works|
      ensures WorkOk(p, f.wait, works[v], f.begun + {t}, f.ended, f.released, f.lifted, f.moved)
      ensures v != w && !works[v].Free? ==> works[v].tok != t
    {
      if v != w { assert WorkOk(p, f.wait, f.works[v], f.begun, f.ended, f.released, f.lifted, f.moved); }
    }
    assert works[w] == Runs(t);
    assert Holds(works, t);
    forall x | Holds(f.works, x) ensures Holds(works, x) { HoldsKept(f.works, w, Runs(t), x); }
  }

  lemma PopInv(p: Plan, f: Fine, w: nat)
    requires Prepared(p) && FineInv(p, f) && Can(p, f, Pop(w))
    ensures FineInv(p, Do(p, f, Pop(w)))
  {
    hide Prepared, Counted, Places, Ordered, Passed, Shaded, Working, Carried, Chronicled, Waiting, Ready;
    PopQueue(f.queue, f.sent, f.begun);
    PopWork(p, f, w, f.queue[0]);
    CarriedKept(p, f.wait, f.wait, f.works, w, Runs(f.queue[0]), f.moved, f.moved);
    LogGrows(f.log, f.begun, f.ended, f.queue[0], Began(f.queue[0].key));
  }

  lemma WorkAt(p: Plan, f: Fine, w: nat)
    requires FineInv(p, f) && w < |f.works|
    ensures WorkOk(p, f.wait, f.works[w], f.begun, f.ended, f.released, f.lifted, f.moved)
  {
    hide Counted, Places, Ordered, Passed, Shaded, Chronicled, Waiting, Sendings, WorkOk;
  }

  lemma NothingReleased(p: Plan, f: Fine, t: Tok)
    requires Counted(p, f.wait, f.released, f.ended) && t.key in p.out && t !in f.ended
    ensures Todo(p, f.released, t, p.out[t.key])
  {
    hide Releasers, Domains;
  }

  lemma WhitenWork(p: Plan, f: Fine, w: nat, t: Tok)
    requires Working(p, f.wait, f.works, f.begun, f.ended, f.released, f.lifted, f.moved)
    requires Counted(p, f.wait, f.released, f.ended) && t.key in p.out
    requires w < |f.works| && f.works[w] == Runs(t) && t !in f.ended
    ensures Working(p, f.wait, f.works[w := Purges(t)], f.begun, f.ended + {t}, f.released, f.lifted, f.moved)
  {
    hide Todo, Zeroed, Counted;
    var works := f.works[w := Purges(t)];
    NothingReleased(p, f, t);
    forall v | 0 <= v < |works|
      ensures WorkOk(p, f.wait, works[v], f.begun, f.ended + {t}, f.released, f.lifted, f.moved)
    {
      if v != w {
        assert WorkOk(p, f.wait, f.works[v], f.begun, f.ended, f.released, f.lifted, f.moved);
        assert f.works[v].Runs? ==> f.works[v].tok != t;
      }
    }
    assert works[w] == Purges(t);
    assert Holds(works, t);
    forall x | Holds(f.works, x) ensures Holds(works, x) { HoldsKept(f.works, w, Purges(t), x); }
  }

  /** A node that is sent twice was BLACK or never collected. */
  lemma SentAgain(p: Plan, f: Fine, k: Key)
    requires FineInv(p, f) && Tok(k, true) in f.sent
    ensures Zeroed(p, f.wait, k) && Tok(k, false) in f.sent && k in f.inPlace && k in f.moved && k in p.list
  {
    hide Counted, Ordered, Passed, Shaded, Working, Carried, Chronicled, Waiting, Sendings, NoDup, Untouched, Zeroed;
  }

  lemma WhitenShades(p: Plan, f: Fine, t: Tok)
    requires Prepared(p) && FineInv(p, f) && t in f.sent && t !in f.ended
    ensures Shaded(p, f.colour[t.key := White], f.wait, f.ended + {t})
  {
    hide Prepared, Counted, Ordered, Places, Passed, Shaded, Working, Carried, Chronicled, Waiting, Ready;
    if t.key in p.list { ListedNotWhite(p, t.key); }
    if t.again { assert t == Tok(t.key, true); SentAgain(p, f, t.key); }
    hide FineInv;
    ShadeWhite(p, f.colour, f.wait, f.ended, t);
  }

  lemma ShadeWhite(p: Plan, colour: map<Key, Colour>, wait: map<Key, int>, ended: set<Tok>, t: Tok)
    requires Shaded(p, colour, wait, ended) && t.key in p.out && Ready(p, wait, t.key)
    requires t.key in p.order ==> p.colour[t.key] != White
    requires t.again ==> p.colour[t.key] != Grey
    ensures Shaded(p, colour[t.key := White], wait, ended + {t})
  {
    hide Ready;
    assert t == Tok(t.key, t.again);
  }

  lemma ListedNotWhite(p: Plan, u: Key)
    requires Prepared(p) && u in p.list
    ensures u in p.colour && p.colour[u] != White
  {
    hide Topological, BlacksInOrder, Stale, NoDup, GreysFirst;
  }

  lemma WhitenInv(p: Plan, f: Fine, w: nat)
    requires Prepared(p) && FineInv(p, f) && Can(p, f, Whiten(w))
    ensures FineInv(p, Do(p, f, Whiten(w)))
  {
    hide Prepared, Counted, Places, Ordered, Passed, Shaded, Working, Carried, Chronicled, Waiting, Ready;
    var t := f.works[w].tok;
    WorkAt(p, f, w);
    WhitenWork(p, f, w, t);
    CarriedKept(p, f.wait, f.wait, f.works, w, Purges(t), f.moved, f.moved);
    WhitenShades(p, f, t);
    LogGrows(f.log, f.begun, f.ended, t, Ended(t.key));
    CountedMore(p, f.wait, f.released, f.ended, t);
  }

  lemma CountedMore(p: Plan, wait: map<Key, int>, released: set<(Tok, Key)>, ended: set<Tok>, t: Tok)
    requires Counted(p, wait, released, ended)
    ensures Counted(p, wait, released, ended + {t})
  {
    hide Releasers, Domains;
  }

  lemma OnwardWork(p: Plan, f: Fine, w: nat, t: Tok, todo: set<Key>, moved: set<Key>)
    requires Working(p, f.wait, f.works, f.begun, f.ended, f.released, f.lifted, f.moved)
    requires w < |f.works| && !f.works[w].Free? && f.works[w].tok == t && t in f.ended && Todo(p, f.released, t, todo)
    requires f.moved <= moved && forall u | u in moved && u !in f.moved :: Carries(f.works[w], u)
    ensures Working(p, f.wait, f.works[w := Onward(t, todo)], f.begun, f.ended, f.released, f.lifted, moved)
  {
    hide Todo, Zeroed;
    var works := f.works[w := Onward(t, todo)];
    forall v | 0 <= v < |works|
      ensures WorkOk(p, f.wait, works[v], f.begun, f.ended, f.released, f.lifted, moved)
    {
      if v != w {
        assert WorkOk(p, f.wait, f.works[v], f.begun, f.ended, f.released, f.lifted, f.moved);
        assert works[v] == f.works[v];
        if works[v].Drops? { assert Carries(works[v], works[v].child); }
      }
    }
    forall x | x in f.begun && x !in f.ended ensures Holds(works, x) { HoldsKept(f.works, w, Onward(t, todo), x); }
    OnwardHolds(p, f, w, t, todo);
  }

  lemma OnwardHolds(p: Plan, f: Fine, w: nat, t: Tok, todo: set<Key>)
    requires forall x, u | x in f.ended && x.key in p.out && u in p.out[x.key] && (x, u) !in f.released :: Holds(f.works, x)
    requires w < |f.works| && !f.works[w].Free? && f.works[w].tok == t && Todo(p, f.released, t, todo)
    ensures forall x, u | x in f.ended && x.key in p.out && u in p.out[x.key] && (x, u) !in f.released ::
              Holds(f.works[w := Onward(t, todo)], x)
  {
    forall x, u | x in f.ended && x.key in p.out && u in p.out[x.key] && (x, u) !in f.released
      ensures Holds(f.works[w := Onward(t, todo)], x)
    {
      if x == t { assert u in todo; }
      HoldsKept(f.works, w, Onward(t, todo), x);
    }
  }

  lemma RemovePlaces(p: Plan, wait: map<Key, int>, list: seq<Key>, sent: set<Tok>, lifted: set<Key>, moved: set<Key>,
                     inPlace: set<Key>, k: Key)
    requires Places(p, wait, list, sent, lifted, moved, inPlace) && Ordered(p, list, moved)
    ensures NoDup(Remove(list, k)) && Ordered(p, Remove(list, k), moved)
    ensures forall u :: u in Remove(list, k) <==> u in list && u != k
  {
    hide Zeroed, Untouched, Before, NoDup, Remove, Ordered;
    assert NoDup(list);
    RemoveFacts(list, k);
    RemoveSplits(list, k);
    hide Places;
    if k in list {
      var i :| 0 <= i < |list| && list[i] == k;
      StillOrdered(p, list, moved, i);
    }
  }

  lemma StillOrdered(p: Plan, list: seq<Key>, moved: set<Key>, i: nat)
    requires Ordered(p, list, moved) && i < |list|
    ensures Ordered(p, list[..i] + list[i + 1..], moved)
  {
    hide Before;
    var rest := list[..i] + list[i + 1..];
    assert forall a | 0 <= a < |rest| :: rest[a] == list[if a < i then a else a + 1];
  }

  lemma PurgePlaces(p: Plan, wait: map<Key, int>, list: seq<Key>, sent: set<Tok>, lifted: set<Key>, moved: set<Key>,
                    inPlace: set<Key>, t: Tok)
    requires Places(p, wait, list, sent, lifted, moved, inPlace) && Ordered(p, list, moved) && t in sent
    ensures Places(p, wait, Remove(list, t.key), sent, lifted, moved, inPlace) && Ordered(p, Remove(list, t.key), moved)
  {
    RemovePlaces(p, wait, list, sent, lifted, moved, inPlace, t.key);
    hide Zeroed, Before, Ordered, NoDup, Remove;
    assert t == Tok(t.key, false) || t == Tok(t.key, true);
    assert Tok(t.key, false) in sent;
  }

  lemma PurgeInv(p: Plan, f: Fine, w: nat)
    requires Prepared(p) && FineInv(p, f) && Can(p, f, Purge(w))
    ensures FineInv(p, Do(p, f, Purge(w)))
  {
    hide Prepared, Counted, Places, Ordered, Passed, Shaded, Working, Carried, Chronicled, Waiting, Ready, Todo;
    var t := f.works[w].tok;
    WorkAt(p, f, w);
    OnwardWork(p, f, w, t, p.out[t.key], f.moved);
    CarriedKept(p, f.wait, f.wait, f.works, w, Onward(t, p.out[t.key]), f.moved, f.moved);
    PurgePlaces(p, f.wait, f.list, f.sent, f.lifted, f.moved, f.inPlace, t);
    hide Onward;
  }

  lemma LiftPlaces(p: Plan, wait: map<Key, int>, list: seq<Key>, sent: set<Tok>, lifted: set<Key>, moved: set<Key>,
                   inPlace: set<Key>, u: Key)
    requires Places(p, wait, list, sent, lifted, moved, inPlace) && Ordered(p, list, moved)
    requires Zeroed(p, wait, u) && u !in lifted
    ensures Places(p, wait, Remove(list, u), sent, lifted + {u}, moved, inPlace) && Ordered(p, Remove(list, u), moved)
  {
    RemovePlaces(p, wait, list, sent, lifted, moved, inPlace, u);
    hide Zeroed, Before, Ordered, NoDup, Remove;
  }

  lemma LiftWork(p: Plan, f: Fine, w: nat)
    requires Working(p, f.wait, f.works, f.begun, f.ended, f.released, f.lifted, f.moved)
    requires w < |f.works| && f.works[w].Lifts? && f.works[w].child !in f.moved
    ensures var k := f.works[w];
            Working(p, f.wait, f.works[w := Drops(k.tok, k.todo, k.child)], f.begun, f.ended, f.released, f.lifted + {k.child}, f.moved)
  {
    hide Todo, Zeroed;
    var k := f.works[w];
    var work := Drops(k.tok, k.todo, k.child);
    var works, lifted := f.works[w := work], f.lifted + {k.child};
    assert Carries(k, k.child);
    assert WorkOk(p, f.wait, k, f.begun, f.ended, f.released, f.lifted, f.moved);
    forall v | 0 <= v < |works|
      ensures WorkOk(p, f.wait, works[v], f.begun, f.ended, f.released, lifted, f.moved)
    {
      if v != w {
        assert WorkOk(p, f.wait, f.works[v], f.begun, f.ended, f.released, f.lifted, f.moved);
        assert works[v] == f.works[v];
        if works[v].Lifts? { assert Carries(works[v], works[v].child); }
      }
    }
    forall x | Holds(f.works, x) ensures Holds(works, x) { HoldsKept(f.works, w, work, x); }
    forall v, x, u | 0 <= v < x < |works| && Carries(works[v], u) ensures !Carries(works[x], u) {
      assert Carries(f.works[v], u);
      assert !Carries(f.works[x], u);
    }
  }

  lemma LiftInv(p: Plan, f: Fine, w: nat)
    requires Prepared(p) && FineInv(p, f) && Can(p, f, Lift(w))
    ensures FineInv(p, Do(p, f, Lift(w)))
  {
    hide Prepared, Counted, Places, Ordered, Passed, Shaded, Working, Carried, Chronicled, Waiting, Ready, Todo, Zeroed, Sendings;
    WorkAt(p, f, w);
    MovedWasLifted(p, f, f.works[w].child);
    LiftWork(p, f, w);
    CarriedKept(p, f.wait, f.wait, f.works, w, Drops(f.works[w].tok, f.works[w].todo, f.works[w].child), f.moved, f.moved);
    LiftPlaces(p, f.wait, f.list, f.sent, f.lifted, f.moved, f.inPlace, f.works[w].child);
  }

  lemma MovedWasLifted(p: Plan, f: Fine, u: Key)
    requires FineInv(p, f)
    ensures u in f.moved ==> u in f.lifted
  {
    hide Counted, Ordered, Passed, Shaded, Working, Carried, Chronicled, Waiting, Sendings, NoDup, Untouched, Zeroed;
  }

  lemma DropPlaces(p: Plan, wait: map<Key, int>, list: seq<Key>, sent: set<Tok>, lifted: set<Key>, moved: set<Key>,
                   inPlace: set<Key>, u: Key)
    requires Places(p, wait, list, sent, lifted, moved, inPlace) && Ordered(p, list, moved)
    requires u in lifted && u !in moved
    ensures Places(p, wait, [u] + list, sent, lifted, moved + {u}, inPlace) && Ordered(p, [u] + list, moved + {u})
  {
    hide Zeroed, Before;
    assert u !in list;
    assert forall x :: x in [u] + list <==> x == u || x in list;
  }

  lemma DropInv(p: Plan, f: Fine, w: nat)
    requires Prepared(p) && FineInv(p, f) && Can(p, f, Drop(w))
    ensures FineInv(p, Do(p, f, Drop(w)))
  {
    hide Prepared, Counted, Places, Ordered, Passed, Shaded, Working, Carried, Chronicled, Waiting, Ready, Todo, Zeroed, Sendings;
    WorkAt(p, f, w);
    var k := f.works[w];
    OnwardWork(p, f, w, k.tok, k.todo, f.moved + {k.child});
    CarriedKept(p, f.wait, f.wait, f.works, w, Onward(k.tok, k.todo), f.moved, f.moved + {k.child});
    DropPlaces(p, f.wait, f.list, f.sent, f.lifted, f.moved, f.inPlace, k.child);
    hide Onward;
  }

  lemma FreedGrows(released: set<(Tok, Key)>, t: Tok, u: Key, v: Key)
    requires (t, u) !in released
    ensures |Releasers(released + {(t, u)}, v)| == |Releasers(released, v)| + if v == u then 1 else 0
  {
    if v == u {
      assert t !in Releasers(released, v);
      assert Releasers(released + {(t, u)}, v) == Releasers(released, v) + {t};
    } else {
      assert Releasers(released + {(t, u)}, v) == Releasers(released, v);
    }
  }

  lemma CountCounts(p: Plan, wait: map<Key, int>, released: set<(Tok, Key)>, ended: set<Tok>, t: Tok, u: Key)
    requires Counted(p, wait, released, ended)
    requires t in ended && t.key in p.out && u in p.out && u in p.out[t.key] && (t, u) !in released
    ensures Counted(p, wait[u := wait[u] - 1], released + {(t, u)}, ended)
  {
    hide Releasers;
    assert p.wait.Keys == p.out.Keys;
    hide Domains;
    forall v | v in p.out
      ensures wait[u := wait[u] - 1][v] == p.wait[v] - |Releasers(released + {(t, u)}, v)|
    {
      FreedGrows(released, t, u, v);
    }
  }

  /** Counting `u` down makes only `u` ready, and only when its counter reaches zero. */
  lemma CountReady(p: Plan, wait: map<Key, int>, released: set<(Tok, Key)>, ended: set<Tok>, u: Key)
    requires Counted(p, wait, released, ended) && u in p.out && u in p.colour && p.colour[u] != Grey
    ensures forall v :: Ready(p, wait[u := wait[u] - 1], v) <==> Ready(p, wait, v) || (v == u && wait[u] == 1)
    ensures Ready(p, wait, u) ==> wait[u] != 1
  {
    hide Releasers;
    assert p.wait[u] - wait[u] == |Releasers(released, u)| >= 0;
    hide Counted;
    var later := wait[u := wait[u] - 1];
    forall v ensures Ready(p, later, v) <==> Ready(p, wait, v) || (v == u && wait[u] == 1) {
      if v == u { assert later[v] == wait[v] - 1; }
    }
  }

  /** `later` is a counter table under which everything stays ready. */
  ghost predicate StillReady(p: Plan, wait: map<Key, int>, later: map<Key, int>) {
    forall v :: Ready(p, wait, v) ==> Ready(p, later, v)
  }

  lemma CountPlaces(p: Plan, f: Fine, later: map<Key, int>)
    requires FineInv(p, f) && StillReady(p, f.wait, later)
    ensures Places(p, later, f.list, f.sent, f.lifted, f.moved, f.inPlace) && Passed(p, later, f.inPlace)
    ensures Sendings(p, later, f.sent, f.begun, f.ended)
  {
    hide Counted, Ordered, Shaded, Working, Carried, Chronicled, Waiting, Ready, NoDup, Untouched, UpTo;
  }

  lemma CountWork(p: Plan, f: Fine, w: nat, u: Key, later: map<Key, int>, work: Work)
    requires Working(p, f.wait, f.works, f.begun, f.ended, f.released, f.lifted, f.moved) && StillReady(p, f.wait, later)
    requires w < |f.works| && f.works[w].Releases? && u in f.works[w].todo
    requires work == Onward(f.works[w].tok, f.works[w].todo - {u}) ||
             (work == Lifts(f.works[w].tok, f.works[w].todo - {u}, u) && u !in f.lifted
              && Zeroed(p, later, u) && !Zeroed(p, f.wait, u))
    requires forall x | x in f.lifted :: Zeroed(p, f.wait, x)
    ensures Working(p, later, f.works[w := work], f.begun, f.ended, f.released + {(f.works[w].tok, u)}, f.lifted, f.moved)
  {
    hide Ready;
    var t, todo := f.works[w].tok, f.works[w].todo;
    var works, released := f.works[w := work], f.released + {(t, u)};
    assert WorkOk(p, f.wait, f.works[w], f.begun, f.ended, f.released, f.lifted, f.moved);
    assert Todo(p, released, t, todo - {u});
    forall v | 0 <= v < |works|
      ensures WorkOk(p, later, works[v], f.begun, f.ended, released, f.lifted, f.moved)
      ensures v != w ==> !Carries(works[v], u) || work.Releases? || work.Free?
    {
      if v != w { WorkElsewhere(p, f, f.works[v], later, t, u); }
    }
    hide WorkOk, Todo, Zeroed;
    forall x | x in f.begun && x !in f.ended ensures Holds(works, x) { EndedElsewhere(p, f, w, x); HoldsKept(f.works, w, work, x); }
    CountHolds(p, f, w, u, work);
  }

  lemma CountHolds(p: Plan, f: Fine, w: nat, u: Key, work: Work)
    requires Working(p, f.wait, f.works, f.begun, f.ended, f.released, f.lifted, f.moved)
    requires w < |f.works| && f.works[w].Releases? && u in f.works[w].todo
    requires work == Onward(f.works[w].tok, f.works[w].todo - {u}) || work == Lifts(f.works[w].tok, f.works[w].todo - {u}, u)
    ensures forall x, y | x in f.ended && x.key in p.out && y in p.out[x.key] && (x, y) !in f.released + {(f.works[w].tok, u)} ::
              Holds(f.works[w := work], x)
  {
    assert WorkOk(p, f.wait, f.works[w], f.begun, f.ended, f.released, f.lifted, f.moved);
    forall x, y | x in f.ended && x.key in p.out && y in p.out[x.key] && (x, y) !in f.released + {(f.works[w].tok, u)}
      ensures Holds(f.works[w := work], x)
    {
      if x == f.works[w].tok { assert y in f.works[w].todo - {u}; }
      HoldsKept(f.works, w, work, x);
    }
  }

  lemma EndedElsewhere(p: Plan, f: Fine, w: nat, x: Tok)
    requires Working(p, f.wait, f.works, f.begun, f.ended, f.released, f.lifted, f.moved)
    requires w < |f.works| && f.works[w].Releases? && x in f.begun && x !in f.ended
    ensures f.works[w].tok != x && Holds(f.works, x)
  {
    hide Todo;
    assert WorkOk(p, f.wait, f.works[w], f.begun, f.ended, f.released, f.lifted, f.moved);
  }

  lemma WorkElsewhere(p: Plan, f: Fine, work: Work, later: map<Key, int>, t: Tok, u: Key)
    requires WorkOk(p, f.wait, work, f.begun, f.ended, f.released, f.lifted, f.moved) && StillReady(p, f.wait, later)
    requires !work.Free? ==> work.tok != t
    requires forall x | x in f.lifted :: Zeroed(p, f.wait, x)
    ensures WorkOk(p, later, work, f.begun, f.ended, f.released + {(t, u)}, f.lifted, f.moved)
    ensures Carries(work, u) ==> Zeroed(p, f.wait, u)
  {
    hide Ready;
  }

  lemma CountShades(p: Plan, colour: map<Key, Colour>, wait: map<Key, int>, later: map<Key, int>, ended: set<Tok>, u: Key)
    requires Shaded(p, colour, wait, ended) && StillReady(p, wait, later) && u in p.out
    requires forall v | v != u && Ready(p, later, v) :: Ready(p, wait, v)
    requires u in p.order ==> p.colour[u] == Black
    ensures (Ready(p, later, u) ==> Ready(p, wait, u)) ==> Shaded(p, colour, later, ended)
    ensures Ready(p, later, u) ==> Shaded(p, colour[u := Grey], later, ended)
  {
    hide Ready;
  }

  lemma LiftedAreZeroed(p: Plan, f: Fine)
    requires FineInv(p, f)
    ensures forall x | x in f.lifted :: Zeroed(p, f.wait, x)
  {
    hide Counted, Ordered, Passed, Shaded, Working, Carried, Chronicled, Waiting, Sendings, NoDup, Untouched, Zeroed;
  }

  lemma CountInv(p: Plan, f: Fine, w: nat, u: Key)
    requires Prepared(p) && FineInv(p, f) && Can(p, f, Count(w, u))
    ensures FineInv(p, Do(p, f, Count(w, u)))
  {
    hide Prepared, Counted, Ordered, Places, Passed, Shaded, Working, Carried, Chronicled, Waiting, Ready, Sendings;
    WorkAt(p, f, w);
    var t, later := f.works[w].tok, f.wait[u := f.wait[u] - 1];
    CountedWasBlack(p, f, t, u);
    CountReady(p, f.wait, f.released, f.ended, u);
    CountCounts(p, f.wait, f.released, f.ended, t, u);
    CountPlaces(p, f, later);
    CountShades(p, f.colour, f.wait, later, f.ended, u);
    LiftedAreZeroed(p, f);
    var work := if later[u] != 0 then Onward(t, f.works[w].todo - {u}) else Lifts(t, f.works[w].todo - {u}, u);
    hide WorkOk;
    CountWork(p, f, w, u, later, work);
    CarriedKept(p, f.wait, later, f.works, w, work, f.moved, f.moved);
    hide Onward, Zeroed, StillReady;
  }

  lemma {:induction false} MoveInv(p: Plan, f: Fine, move: Move)
    requires Prepared(p) && FineInv(p, f) && Can(p, f, move)
    ensures FineInv(p, Do(p, f, move))
  {
    hide Prepared, Counted, Places, Ordered, Passed, Shaded, Working, Carried, Chronicled, Waiting, Sendings, LockFree;
    match move
    case Look => LookInv(p, f);
    case Send => SendInv(p, f);
    case Pop(w) => PopInv(p, f, w);
    case Whiten(w) => WhitenInv(p, f, w);
    case Purge(w) => PurgeInv(p, f, w);
    case Count(w, u) => CountInv(p, f, w, u);
    case Lift(w) => LiftInv(p, f, w);
    case Drop(w) => DropInv(p, f, w);
    case Enter =>
    case Leave =>
    case Crash(w) =>
  }

  /** Every state of every interleaving of moves, with any number of workers, satisfies the invariant. */
  lemma {:induction false} AlwaysFine(p: Plan, n: nat, moves: seq<Move>)
    requires Prepared(p) && Follow(p, n, moves).Reached?
    ensures FineInv(p, Follow(p, n, moves).fine)
  {
    hide FineInv, Prepared, Do, Can;
    if moves == [] {
      StartInv(p, n);
    } else {
      AlwaysFine(p, n, moves[..|moves| - 1]);
      MoveInv(p, Follow(p, n, moves[..|moves| - 1]).fine, moves[|moves| - 1]);
    }
  }
}
