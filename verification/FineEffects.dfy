/** What every run of the locked stage shows of its moves: a failing recipe ends it, the list lock
    is exclusive, a pass ends at a BLACK node, and recipes start in the order of dispatch. */
module FineEffects {
  import opened Colours
  import opened Lists
  import opened Scheduling
  import opened FineScheduling
  import FineInvariant

  lemma {:induction false} PrefixReached(p: Plan, n: nat, moves: seq<Move>, i: nat)
    requires Follow(p, n, moves).Reached? && i <= |moves|
    ensures Follow(p, n, moves[..i]).Reached?
    ensures i < |moves| ==> Can(p, Follow(p, n, moves[..i]).fine, moves[i])
  {
    hide Can, Do;
    if i == |moves| {
      assert moves[..i] == moves;
    } else if i < |moves| - 1 {
      PrefixReached(p, n, moves[..|moves| - 1], i);
      assert moves[..|moves| - 1][..i] == moves[..i];
    }
  }

  // ---------- a failing recipe ----------

  /** A run is aborted exactly when its last move is a failing recipe. */
  lemma {:induction false} AbortedAtCrash(p: Plan, n: nat, moves: seq<Move>)
    requires Follow(p, n, moves).Reached?
    ensures Follow(p, n, moves).fine.aborted <==> moves != [] && moves[|moves| - 1].Crash?
  {
    if moves != [] {
      AbortedAtCrash(p, n, moves[..|moves| - 1]);
      hide Remove, LockFree, Onward, Token;
    }
  }

  /** Nothing happens after a recipe has failed, and its failure is not logged as its end; only a node
      that has a recipe, and that had started, can fail. */
  lemma CrashEndsRun(p: Plan, n: nat, moves: seq<Move>, i: nat)
    requires Follow(p, n, moves).Reached? && i < |moves| && moves[i].Crash?
    ensures i == |moves| - 1 && Follow(p, n, moves[..i]).Reached?
    ensures Follow(p, n, moves).fine.log == Follow(p, n, moves[..i]).fine.log
    ensures var f, w := Follow(p, n, moves[..i]).fine, moves[i].worker;
            w < n && f.works[w].Runs? && f.works[w].tok.key in p.recipes
  {
    PrefixReached(p, n, moves, i);
    if i < |moves| - 1 {
      PrefixReached(p, n, moves, i + 1);
      AbortedAtCrash(p, n, moves[..i + 1]);
    }
  }

  lemma ReachedIsShaped(p: Plan, n: nat, moves: seq<Move>)
    requires Prepared(p) && Follow(p, n, moves).Reached?
    ensures Shaped(p, Follow(p, n, moves).fine)
  {
    hide Can, Do, Topological, Coloured, BlacksInOrder;
  }

  /** Any recipe may fail while it runs, whatever else is going on. */
  lemma AnyRecipeCanFail(p: Plan, n: nat, moves: seq<Move>, w: nat)
    requires Prepared(p) && Follow(p, n, moves).Reached? && (moves == [] || !moves[|moves| - 1].Crash?)
    requires w < n && Follow(p, n, moves).fine.works[w].Runs? && Follow(p, n, moves).fine.works[w].tok.key in p.recipes
    ensures Follow(p, n, moves + [Crash(w)]).Reached?
  {
    ReachedIsShaped(p, n, moves);
    AbortedAtCrash(p, n, moves);
    hide Prepared, Follow, Do, Shaped, LockFree, HeadGoes, HeadStays;
    Extend(p, n, moves, Crash(w));
  }

  // ---------- the list lock ----------

  /** The master in a pass excludes workers that hold the lock, and these exclude each other. */
  ghost predicate Exclusive(f: Fine) {
    && (f.master.Passing? ==> forall w | 0 <= w < |f.works| :: !f.works[w].Drops?)
    && (forall v, w | 0 <= v < w < |f.works| && f.works[v].Drops? :: !f.works[w].Drops?)
  }

  /** In every run at most one thread holds the list lock. */
  lemma {:induction false} LockIsExclusive(p: Plan, n: nat, moves: seq<Move>)
    requires Follow(p, n, moves).Reached?
    ensures Exclusive(Follow(p, n, moves).fine)
  {
    if moves != [] {
      LockIsExclusive(p, n, moves[..|moves| - 1]);
      ExclusiveMove(p, Follow(p, n, moves[..|moves| - 1]).fine, moves[|moves| - 1]);
      hide Exclusive, Do, Can;
    }
  }

  lemma ExclusiveMove(p: Plan, f: Fine, move: Move)
    requires Exclusive(f) && Can(p, f, move)
    ensures Exclusive(Do(p, f, move))
  {
    hide Remove, Token, HeadGoes, HeadStays;
  }

  /** While a worker holds the lock, the child it moves is out of the list. */
  lemma {:induction false} HeldChildIsOut(p: Plan, n: nat, moves: seq<Move>, w: nat)
    requires Prepared(p) && Follow(p, n, moves).Reached? && w < n && Follow(p, n, moves).fine.works[w].Drops?
    ensures Follow(p, n, moves).fine.works[w].child !in Follow(p, n, moves).fine.list
  {
    FineInvariant.AlwaysFine(p, n, moves);
    var f := Follow(p, n, moves).fine;
    hide Prepared, Follow, FineInvariant.FineInv;
    FineInvariant.WorkAt(p, f, w);
    OutOfList(p, f, f.works[w].child);
  }

  lemma OutOfList(p: Plan, f: Fine, u: Key)
    requires FineInvariant.FineInv(p, f) && u in f.lifted && u !in f.moved
    ensures u !in f.list
  {
    hide FineInvariant.Counted, FineInvariant.Ordered, FineInvariant.Passed, FineInvariant.Shaded, FineInvariant.Waiting,
         FineInvariant.Chronicled, FineInvariant.Working, FineInvariant.Carried, FineInvariant.Sendings, FineInvariant.Zeroed;
  }

  /** A pass ends at the end of the list or at a BLACK node, the master leaves only after it has seen
      an empty list, and a finished task is out of the list once its worker has purged it. */
  lemma PassesEnd(p: Plan, n: nat, moves: seq<Move>)
    requires Follow(p, n, moves).Reached? && moves != []
    ensures var f, last := Follow(p, n, moves).fine, moves[|moves| - 1];
            && (last.Leave? ==> f.list == [] || (f.list[0] in f.colour && f.colour[f.list[0]] == Black))
            && (last.Look? && f.master.Gone? ==> f.list == [])
    ensures moves[|moves| - 1].Purge? ==>
              var front, w := Follow(p, n, moves[..|moves| - 1]), moves[|moves| - 1].worker;
              front.Reached? && w < n && front.fine.works[w].Purges?
              && front.fine.works[w].tok.key !in Follow(p, n, moves).fine.list
  {
    var front, last := Follow(p, n, moves[..|moves| - 1]).fine, moves[|moves| - 1];
    if last.Purge? { Removed(front.list, front.works[last.worker].tok.key); }
    hide Remove, LockFree, HeadGoes, Onward, Token;
  }

  lemma {:induction false} Removed<T>(s: seq<T>, x: T)
    ensures x !in Remove(s, x)
  {
    if s != [] { Removed(s[1..], x); }
  }

  // ---------- first in, first out ----------

  /** The nodes that the master has sent, in order, one entry a dispatch. */
  ghost function SentKeys(p: Plan, n: nat, moves: seq<Move>): seq<Key> {
    if moves == [] then []
    else
      var front, r := moves[..|moves| - 1], Follow(p, n, moves[..|moves| - 1]);
      SentKeys(p, n, front) + if moves[|moves| - 1].Send? && r.Reached? && r.fine.list != [] then [r.fine.list[0]] else []
  }

  ghost function StartedKeys(log: seq<Event>): seq<Key> {
    if log == [] then []
    else StartedKeys(log[..|log| - 1]) + if log[|log| - 1].Began? then [log[|log| - 1].key] else []
  }

  ghost function QueuedKeys(queue: seq<Tok>): seq<Key> {
    seq(|queue|, i requires 0 <= i < |queue| => queue[i].key)
  }

  lemma LogMore(log: seq<Event>, e: Event)
    ensures StartedKeys(log + [e]) == StartedKeys(log) + if e.Began? then [e.key] else []
  {
    assert (log + [e])[..|log|] == log;
  }

  /** In every run the recipes start in the order in which their nodes were sent, and the queue holds
      the nodes sent and not yet started, in that order. */
  lemma {:induction false} StartsInOrder(p: Plan, n: nat, moves: seq<Move>)
    requires Follow(p, n, moves).Reached?
    ensures SentKeys(p, n, moves) == StartedKeys(Follow(p, n, moves).fine.log) + QueuedKeys(Follow(p, n, moves).fine.queue)
  {
    if moves != [] {
      var front, move := Follow(p, n, moves[..|moves| - 1]).fine, moves[|moves| - 1];
      StartsInOrder(p, n, moves[..|moves| - 1]);
      OrderedMove(p, front, move);
      hide Can, Do, StartedKeys, QueuedKeys;
    }
  }

  lemma OrderedMove(p: Plan, f: Fine, move: Move)
    requires Can(p, f, move)
    ensures var g := Do(p, f, move);
            StartedKeys(g.log) + QueuedKeys(g.queue) ==
            StartedKeys(f.log) + QueuedKeys(f.queue) + if move.Send? && f.list != [] then [f.list[0]] else []
  {
    hide Remove, LockFree, Onward, StartedKeys;
    match move
    case Pop(w) => LogMore(f.log, Began(f.queue[0].key));
    case Whiten(w) => LogMore(f.log, Ended(f.works[w].tok.key));
    case _ =>
  }
}
