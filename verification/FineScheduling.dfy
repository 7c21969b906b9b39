/** The scheduling stage lock by lock.  `Scheduling` makes a release one step; here it is
    four: count the child down and publish it as GREY under its own lock, then take the list
    lock, remove the child, push it to the front.  The master tests for an empty list without
    the lock and makes a pass over the list under it. */
module FineScheduling {
  import opened Colours
  import opened Lists
  import opened Scheduling

  /** One dispatch of a node.  `again` marks a second one; no move reads the mark. */
  datatype Tok = Tok(key: Key, again: bool)

  /** The master tests the list, wants the list lock, holds it during a pass, or has left its loop. */
  datatype Master = Watching | Wanting | Passing | Gone

  /** A worker: no task, running a recipe, about to remove its finished task from the list, counting
      children down, or moving a child whose counter it brought to zero.  `Drops` holds the list lock:
      the child is out of the list and not yet back. */
  datatype Work =
    | Free
    | Runs(tok: Tok)
    | Purges(tok: Tok)
    | Releases(tok: Tok, todo: set<Key>)
    | Lifts(tok: Tok, todo: set<Key>, child: Key)
    | Drops(tok: Tok, todo: set<Key>, child: Key)

  /** The last eight fields record history only: no move reads them, except to mark a token. */
  datatype Fine = Fine(colour: map<Key, Colour>, wait: map<Key, int>, list: seq<Key>, queue: seq<Tok>,
                       works: seq<Work>, master: Master, aborted: bool,
                       sent: set<Tok>, begun: set<Tok>, ended: set<Tok>, released: set<(Tok, Key)>,
                       lifted: set<Key>, moved: set<Key>, inPlace: set<Key>, log: seq<Event>)

  datatype Move =
    | Look                        // master: test for an empty list, without the lock
    | Enter                       // master: take the list lock
    | Send                        // master: move the head of the list to the queue
    | Leave                       // master: the list is at its end or at a BLACK node, give the lock back
    | Pop(worker: nat)            // worker: pop the queue and start the recipe
    | Whiten(worker: nat)         // worker: recipe done, turn the node WHITE
    | Purge(worker: nat)          // worker: remove the node from the list
    | Count(worker: nat, u: Key)  // worker: count one child down; at zero turn it GREY
    | Lift(worker: nat)           // worker: take the list lock and remove the child
    | Drop(worker: nat)           // worker: push the child to the front and give the lock back
    | Crash(worker: nat)          // worker: recipe failed, the process exits

  function Start(p: Plan, n: nat): Fine {
    Fine(p.colour, p.wait, p.list, [], seq(n, _ => Free), Watching, false, {}, {}, {}, {}, {}, {}, {}, [])
  }

  predicate Shaped(p: Plan, f: Fine) {
    f.colour.Keys == p.out.Keys && f.wait.Keys == p.out.Keys
  }

  predicate LockFree(f: Fine) {
    !f.master.Passing? && forall w | 0 <= w < |f.works| :: !f.works[w].Drops?
  }

  predicate HeadGoes(f: Fine) {
    f.list != [] && f.list[0] in f.colour && f.colour[f.list[0]] != Black
  }

  predicate HeadStays(f: Fine) {
    f.list == [] || (f.list[0] in f.colour && f.colour[f.list[0]] == Black)
  }

  predicate Can(p: Plan, f: Fine, move: Move) {
    && Shaped(p, f)
    && !f.aborted
    && match move
       case Look => f.master.Watching?
       case Enter => f.master.Wanting? && LockFree(f)
       case Send => f.master.Passing? && HeadGoes(f)
       case Leave => f.master.Passing? && HeadStays(f)
       case Pop(w) => w < |f.works| && f.works[w].Free? && f.queue != []
       case Whiten(w) => w < |f.works| && f.works[w].Runs? && f.works[w].tok.key in p.out
       case Purge(w) => w < |f.works| && f.works[w].Purges? && f.works[w].tok.key in p.out && LockFree(f)
       case Count(w, u) => w < |f.works| && f.works[w].Releases? && u in f.works[w].todo && u in p.out
       case Lift(w) => w < |f.works| && f.works[w].Lifts? && LockFree(f)
       case Drop(w) => w < |f.works| && f.works[w].Drops?
       case Crash(w) => w < |f.works| && f.works[w].Runs? && f.works[w].tok.key in p.recipes
  }

  function Onward(tok: Tok, todo: set<Key>): Work {
    if todo == {} then Free else Releases(tok, todo)
  }

  /** The token for dispatching `k` now. */
  function Token(sent: set<Tok>, k: Key): Tok {
    Tok(k, Tok(k, false) in sent)
  }

  function Do(p: Plan, f: Fine, move: Move): (g: Fine)
    requires Can(p, f, move)
    ensures Shaped(p, g) && |g.works| == |f.works|
  {
    match move
    case Look =>
      f.(master := if f.list == [] then Gone else Wanting)
    case Enter =>
      f.(master := Passing)
    case Send =>
      var k := f.list[0];
      f.(queue := f.queue + [Token(f.sent, k)], list := f.list[1..], sent := f.sent + {Token(f.sent, k)},
         inPlace := if k in f.moved then f.inPlace else f.inPlace + {k})
    case Leave =>
      f.(master := Watching)
    case Pop(w) =>
      var t := f.queue[0];
      f.(queue := f.queue[1..], works := f.works[w := Runs(t)], begun := f.begun + {t}, log := f.log + [Began(t.key)])
    case Whiten(w) =>
      var t := f.works[w].tok;
      f.(colour := f.colour[t.key := White], works := f.works[w := Purges(t)],
         ended := f.ended + {t}, log := f.log + [Ended(t.key)])
    case Purge(w) =>
      var t := f.works[w].tok;
      f.(list := Remove(f.list, t.key), works := f.works[w := Onward(t, p.out[t.key])])
    case Count(w, u) =>
      var t, rest := f.works[w].tok, f.works[w].todo - {u};
      var g := f.(wait := f.wait[u := f.wait[u] - 1], released := f.released + {(t, u)});
      if g.wait[u] != 0 then g.(works := g.works[w := Onward(t, rest)])
      else g.(colour := g.colour[u := Grey], works := g.works[w := Lifts(t, rest, u)])
    case Lift(w) =>
      var k := f.works[w];
      f.(list := Remove(f.list, k.child), works := f.works[w := Drops(k.tok, k.todo, k.child)],
         lifted := f.lifted + {k.child})
    case Drop(w) =>
      var k := f.works[w];
      f.(list := [k.child] + f.list, works := f.works[w := Onward(k.tok, k.todo)], moved := f.moved + {k.child})
    case Crash(w) =>
      f.(aborted := true)
  }

  datatype Arrival = Reached(fine: Fine) | Blocked

  /** The state after an interleaving of moves, or `Blocked` when some move was not possible. */
  function Follow(p: Plan, n: nat, moves: seq<Move>): (r: Arrival)
    ensures r.Reached? ==> |r.fine.works| == n
  {
    if moves == [] then Reached(Start(p, n))
    else
      var r := Follow(p, n, moves[..|moves| - 1]);
      var move := moves[|moves| - 1];
      if r.Reached? && Can(p, r.fine, move) then Reached(Do(p, r.fine, move)) else Blocked
  }

  /** A run can be continued by a possible move. */
  lemma Extend(p: Plan, n: nat, moves: seq<Move>, move: Move)
    requires Follow(p, n, moves).Reached? && Can(p, Follow(p, n, moves).fine, move)
    ensures Follow(p, n, moves + [move]) == Reached(Do(p, Follow(p, n, moves).fine, move))
  {
    assert (moves + [move])[..|moves|] == moves;
  }

  /** Nothing is queued and no worker has a task. */
  predicate Quiet(f: Fine) {
    f.queue == [] && forall w | 0 <= w < |f.works| :: f.works[w].Free?
  }

  /** The stage is over: the master has left and all is quiet. */
  predicate Over(f: Fine) {
    !f.aborted && f.master.Gone? && Quiet(f)
  }
}
