/** Walks in a directed graph, given as a map from a node to its neighbours. */
module Digraph {

  ghost predicate IsWalk<N>(g: map<N, set<N>>, older w: seq<N>) {
    && w != []
    && (forall i | 0 <= i < |w| :: w[i] in g)
    && (forall i | 0 <= i < |w| - 1 :: w[i + 1] in g[w[i]])
  }

  ghost predicate Reaches<N>(g: map<N, set<N>>, a: N, b: N) {
    exists w :: IsWalk(g, w) && w[0] == a && w[|w| - 1] == b
  }

  ghost predicate Acyclic<N>(g: map<N, set<N>>) {
    forall w | IsWalk(g, w) && |w| >= 2 :: w[0] != w[|w| - 1]
  }

  ghost predicate WellFormed<N>(g: map<N, set<N>>) {
    forall x | x in g :: g[x] <= g.Keys
  }

  ghost predicate Closed<N>(g: map<N, set<N>>, s: set<N>) {
    forall x | x in s && x in g :: g[x] <= s
  }

  /** A walk that stays outside `base`, the nodes visited before the search began. */
  ghost predicate WalkOutside<N>(g: map<N, set<N>>, base: set<N>, older w: seq<N>) {
    IsWalk(g, w) && forall i | 0 <= i < |w| :: w[i] !in base
  }

  ghost predicate ReachesOutside<N>(g: map<N, set<N>>, base: set<N>, a: N, b: N) {
    exists w :: WalkOutside(g, base, w) && w[0] == a && w[|w| - 1] == b
  }

  /** A cycle that the search from `a` can meet. */
  ghost predicate LoopOutside<N>(g: map<N, set<N>>, base: set<N>, a: N) {
    exists w :: WalkOutside(g, base, w) && |w| >= 2 && w[0] == w[|w| - 1] && ReachesOutside(g, base, a, w[0])
  }

  /** A cycle among the nodes that reach `u`. */
  ghost predicate LoopAbove<N>(g: map<N, set<N>>, u: N) {
    exists w :: IsWalk(g, w) && |w| >= 2 && w[0] == w[|w| - 1] && Reaches(g, w[0], u)
  }

  /** An edge from `b` down to `a`, which reaches `b`, closes a cycle above all that `a` reaches. */
  lemma EdgeClosesLoop<N>(g: map<N, set<N>>, a: N, b: N, u: N)
    requires b in g && a in g[b] && Reaches(g, a, b) && Reaches(g, a, u)
    ensures LoopAbove(g, u)
  {
    ReachesBack(g, b, a, u);
    var w :| IsWalk(g, w) && w[0] == a && w[|w| - 1] == b;
    var v := [b] + w;
    assert IsWalk(g, v) && v[0] == v[|v| - 1];
  }

  lemma LoopAboveIsCycle<N>(g: map<N, set<N>>, u: N)
    requires LoopAbove(g, u)
    ensures !Acyclic(g)
  {
    var w :| IsWalk(g, w) && |w| >= 2 && w[0] == w[|w| - 1] && Reaches(g, w[0], u);
  }

  lemma ReachesItself<N>(g: map<N, set<N>>, base: set<N>, a: N)
    requires a in g && a !in base
    ensures ReachesOutside(g, base, a, a)
  {
    assert WalkOutside(g, base, [a]);
  }

  lemma ReachesFurther<N>(g: map<N, set<N>>, base: set<N>, a: N, b: N, c: N)
    requires ReachesOutside(g, base, a, b) && b in g && c in g[b] && c in g && c !in base
    ensures ReachesOutside(g, base, a, c)
  {
    var w :| WalkOutside(g, base, w) && w[0] == a && w[|w| - 1] == b;
    var v := w + [c];
    assert WalkOutside(g, base, v) && v[0] == a && v[|v| - 1] == c;
  }

  lemma ReachesBack<N>(g: map<N, set<N>>, a: N, b: N, c: N)
    requires a in g && b in g[a] && Reaches(g, b, c)
    ensures Reaches(g, a, c)
  {
    var w :| IsWalk(g, w) && w[0] == b && w[|w| - 1] == c;
    var v := [a] + w;
    assert IsWalk(g, v) && v[0] == a && v[|v| - 1] == c;
  }

  lemma {:induction false} ClosedKeepsWalks<N>(g: map<N, set<N>>, s: set<N>, w: seq<N>)
    requires Closed(g, s) && IsWalk(g, w) && w[0] in s
    ensures w[|w| - 1] in s
  {
    if |w| > 1 {
      assert IsWalk(g, w[..|w| - 1]);
      ClosedKeepsWalks(g, s, w[..|w| - 1]);
    }
  }

  lemma LoopIsCycle<N>(g: map<N, set<N>>, base: set<N>, a: N)
    requires LoopOutside(g, base, a)
    ensures !Acyclic(g)
  {
    var w :| WalkOutside(g, base, w) && |w| >= 2 && w[0] == w[|w| - 1] && ReachesOutside(g, base, a, w[0]);
  }

  /** From a node outside a closed set, everything reached is in the set or reached outside it. */
  lemma ReachesSplits<N>(g: map<N, set<N>>, base: set<N>, a: N, b: N)
    requires Closed(g, base) && a !in base && Reaches(g, a, b)
    ensures b in base || ReachesOutside(g, base, a, b)
  {
    var w :| IsWalk(g, w) && w[0] == a && w[|w| - 1] == b;
    ClosedBase(g, base, w);
  }

  /** Outside a closed set, reaching and reaching outside are the same. */
  lemma {:induction false} ClosedBase<N>(g: map<N, set<N>>, base: set<N>, w: seq<N>)
    requires Closed(g, base) && IsWalk(g, w) && w[0] !in base
    ensures w[|w| - 1] in base || ReachesOutside(g, base, w[0], w[|w| - 1])
  {
    if |w| == 1 {
      ReachesItself(g, base, w[0]);
    } else {
      var v := w[..|w| - 1];
      assert IsWalk(g, v);
      ClosedBase(g, base, v);
      if w[|w| - 1] !in base {
        ReachesFurther(g, base, w[0], v[|v| - 1], w[|w| - 1]);
      }
    }
  }
}

/** The depth-first search shared by `is_dag` and `add_to_task_list`: one explicit stack,
    GREY nodes on it, BLACK nodes in the order they left it. */
module DepthFirst {
  import opened Colours
  import opened Lists
  import opened Digraph

  /** Each node of `order` comes after its neighbours, unless those were visited before. */
  ghost predicate PostOrder<N>(g: map<N, set<N>>, base: set<N>, order: seq<N>) {
    && NoDup(order)
    && (forall x | x in order :: x in g && x !in base)
    && (forall i | 0 <= i < |order| :: g[order[i]] <= base + Elems(order[..i]))
  }

  /** The stack is a path from `root`. */
  ghost predicate OnStack<N>(g: map<N, set<N>>, base: set<N>, root: N, stack: seq<N>) {
    && NoDup(stack)
    && (forall x | x in stack :: x in g && x !in base)
    && (stack != [] ==> stack[0] == root)
    && (forall i | 0 <= i < |stack| - 1 :: stack[i + 1] in g[stack[i]])
  }

  ghost predicate NoBackEdge<N>(g: map<N, set<N>>, stack: seq<N>) {
    forall i, j | 0 <= j <= i < |stack| && stack[i] in g :: stack[j] !in g[stack[i]]
  }

  ghost predicate Found<N>(g: map<N, set<N>>, base: set<N>, root: N, s: seq<N>) {
    forall x | x in s :: ReachesOutside(g, base, root, x)
  }

  ghost predicate Searching<N>(g: map<N, set<N>>, base: set<N>, root: N, stack: seq<N>, order: seq<N>) {
    && WellFormed(g) && root in g && root !in base
    && OnStack(g, base, root, stack) && PostOrder(g, base, order)
    && (forall x | x in stack :: x !in order)
    && Found(g, base, root, stack) && Found(g, base, root, order)
  }

  /** `p` is the next node to visit. */
  ghost predicate Next<N>(g: map<N, set<N>>, base: set<N>, root: N, stack: seq<N>, order: seq<N>, p: N) {
    && p in g && p !in base && p !in stack && p !in order
    && (if stack == [] then p == root else stack[|stack| - 1] in g && p in g[stack[|stack| - 1]])
  }

  ghost function Seen<N>(stack: seq<N>, order: seq<N>): set<N> {
    Elems(stack) + Elems(order)
  }

  lemma StartSearch<N>(g: map<N, set<N>>, base: set<N>, root: N)
    requires WellFormed(g) && root in g && root !in base
    ensures Searching(g, base, root, [], []) && Next(g, base, root, [], [], root)
  {}

  lemma NextIsFound<N>(g: map<N, set<N>>, base: set<N>, root: N, stack: seq<N>, order: seq<N>, p: N)
    requires Searching(g, base, root, stack, order) && Next(g, base, root, stack, order, p)
    ensures ReachesOutside(g, base, root, p)
  {
    if stack == [] {
      ReachesItself(g, base, root);
    } else {
      ReachesFurther(g, base, root, stack[|stack| - 1], p);
    }
  }

  lemma Push<N>(g: map<N, set<N>>, base: set<N>, root: N, stack: seq<N>, order: seq<N>, p: N)
    requires Searching(g, base, root, stack, order) && Next(g, base, root, stack, order, p)
    ensures Searching(g, base, root, stack + [p], order)
    ensures Seen(stack + [p], order) == Seen(stack, order) + {p} && p !in Seen(stack, order)
    ensures root in stack + [p] && g[p] <= g.Keys
  {
    NextIsFound(g, base, root, stack, order, p);
    hide PostOrder, ReachesOutside;
    assert stack != [] ==> stack[0] in stack;
  }

  /** An edge from the top of the stack back into the stack closes a cycle. */
  lemma BackEdge<N>(g: map<N, set<N>>, base: set<N>, root: N, stack: seq<N>, order: seq<N>, u: N)
    requires Searching(g, base, root, stack, order) && stack != []
    requires stack[|stack| - 1] in g && u in g[stack[|stack| - 1]] && u in stack
    ensures LoopOutside(g, base, root)
  {
    var i :| 0 <= i < |stack| && stack[i] == u;
    var w := stack[i..] + [u];
    assert forall k | 0 <= k < |w| - 1 :: w[k] == stack[i + k] && w[k] in stack;
    assert WalkOutside(g, base, w) && w[0] == w[|w| - 1];
    assert ReachesOutside(g, base, root, w[0]);
  }

  lemma Pop<N>(g: map<N, set<N>>, base: set<N>, root: N, stack: seq<N>, order: seq<N>)
    requires Searching(g, base, root, stack, order) && stack != []
    requires forall c | c in g[stack[|stack| - 1]] :: c in base || c in order
    ensures Searching(g, base, root, stack[..|stack| - 1], order + [stack[|stack| - 1]])
    ensures Seen(stack[..|stack| - 1], order + [stack[|stack| - 1]]) == Seen(stack, order)
  {
    hide ReachesOutside, WellFormed, PostOrder, OnStack;
    var top := stack[|stack| - 1];
    PopStack(g, base, root, stack);
    assert top in stack && top !in order;
    PopOrder(g, base, order, top);
    var o := order + [top];
    assert forall x :: x in o <==> x in order || x == top;
  }

  lemma PopStack<N>(g: map<N, set<N>>, base: set<N>, root: N, stack: seq<N>)
    requires OnStack(g, base, root, stack) && stack != []
    ensures OnStack(g, base, root, stack[..|stack| - 1])
    ensures stack[|stack| - 1] in g && stack[|stack| - 1] !in base
    ensures forall x :: x in stack[..|stack| - 1] <==> x in stack && x != stack[|stack| - 1]
  {
    var s, top := stack[..|stack| - 1], stack[|stack| - 1];
    assert top in stack;
    assert stack == s + [top];
  }

  lemma PopOrder<N>(g: map<N, set<N>>, base: set<N>, order: seq<N>, top: N)
    requires PostOrder(g, base, order) && top in g && top !in base && top !in order
    requires forall c | c in g[top] :: c in base || c in order
    ensures PostOrder(g, base, order + [top])
  {
    var o := order + [top];
    assert forall i | 0 <= i < |order| :: o[i] == order[i] && o[..i] == order[..i];
    assert o[..|order|] == order;
    assert forall x | x in o :: x in order || x == top;
  }

  // ---------- the end of a successful search ----------

  lemma {:induction false} WalkStaysInOrder<N>(g: map<N, set<N>>, base: set<N>, order: seq<N>, w: seq<N>, k: nat)
    requires PostOrder(g, base, order) && WalkOutside(g, base, w) && w[0] in order && k < |w|
    ensures w[k] in order
    ensures k > 0 ==> forall i, j | 0 <= i < |order| && 0 <= j < |order| && order[i] == w[0] && order[j] == w[k] :: j < i
  {
    if k > 0 {
      WalkStaysInOrder(g, base, order, w, k - 1);
      var m :| 0 <= m < |order| && order[m] == w[k - 1];
      assert w[k] in base + Elems(order[..m]);
    }
  }

  /** When the stack is empty, `order` is exactly what the root reaches, and there is no cycle there. */
  lemma SearchDone<N>(g: map<N, set<N>>, base: set<N>, root: N, order: seq<N>)
    requires Searching(g, base, root, [], order) && root in order
    ensures forall x :: x in order <==> ReachesOutside(g, base, root, x)
    ensures !LoopOutside(g, base, root)
  {
    forall x | ReachesOutside(g, base, root, x) ensures x in order {
      var w :| WalkOutside(g, base, w) && w[0] == root && w[|w| - 1] == x;
      WalkStaysInOrder(g, base, order, w, |w| - 1);
    }
    if LoopOutside(g, base, root) {
      var w :| WalkOutside(g, base, w) && |w| >= 2 && w[0] == w[|w| - 1] && ReachesOutside(g, base, root, w[0]);
      WalkStaysInOrder(g, base, order, w, |w| - 1);
      assert false;
    }
  }

  /** A second search on top of a finished one keeps the whole a post-order. */
  lemma Append<N>(g: map<N, set<N>>, first: seq<N>, second: seq<N>)
    requires PostOrder(g, {}, first) && PostOrder(g, Elems(first), second)
    ensures PostOrder(g, {}, first + second)
    ensures Closed(g, Elems(first))
  {
    var o := first + second;
    PostOrderIsClosed(g, first);
    forall i | 0 <= i < |o| ensures g[o[i]] <= {} + Elems(o[..i]) {
      if i < |first| {
        assert o[..i] == first[..i];
      } else {
        assert o[i] == second[i - |first|];
        assert o[..i] == first + second[..i - |first|];
      }
    }
    forall i, j | 0 <= i < j < |o| ensures o[i] != o[j] {
      if j >= |first| { assert second[j - |first|] !in Elems(first); }
    }
  }

  lemma PostOrderIsClosed<N>(g: map<N, set<N>>, order: seq<N>)
    requires PostOrder(g, {}, order)
    ensures Closed(g, Elems(order))
  {
    forall x, c | x in order && c in g[x] ensures c in order {
      var i :| 0 <= i < |order| && order[i] == x;
      assert c in {} + Elems(order[..i]);
    }
  }

  lemma PostOrderOfAllIsAcyclic<N>(g: map<N, set<N>>, order: seq<N>)
    requires PostOrder(g, {}, order) && Elems(order) == g.Keys
    ensures Acyclic(g)
  {
    forall w | IsWalk(g, w) && |w| >= 2 ensures w[0] != w[|w| - 1] {
      assert WalkOutside(g, {}, w);
      assert w[0] in Elems(order);
      WalkStaysInOrder(g, {}, order, w, |w| - 1);
    }
  }

  // ---------- the search with its colours ----------

  /** GREY nodes are on the stack, BLACK ones were visited; the root keeps its old colour until it is pushed. */
  ghost predicate Painted<N>(g: map<N, set<N>>, base: set<N>, root: N, colour: map<N, Colour>, stack: seq<N>, order: seq<N>) {
    && colour.Keys == g.Keys
    && (forall n | n in g && (n != root || n in Seen(stack, order)) ::
         colour[n] == if n in stack then Grey else if n in base || n in order then Black else White)
  }

  ghost predicate Exploring<N>(g: map<N, set<N>>, base: set<N>, root: N, colour: map<N, Colour>, stack: seq<N>, order: seq<N>) {
    Searching(g, base, root, stack, order) && Painted(g, base, root, colour, stack, order)
  }

  /** A search that a cycle has stopped: what is finished is a post-order of nodes that the root reaches,
      and is BLACK; the nodes that turned GREY, the root among them, are reached but not finished. */
  ghost predicate Interrupted<N>(g: map<N, set<N>>, base: set<N>, root: N, colour: map<N, Colour>, order: seq<N>) {
    && PostOrder(g, base, order) && colour.Keys == g.Keys
    && (forall x | x in order :: ReachesOutside(g, base, root, x))
    && (forall n | n in g :: colour[n] == Black <==> n in base || n in order)
    && (forall n | n in g && colour[n] == Grey :: ReachesOutside(g, base, root, n))
    && root in g && colour[root] == Grey
  }

  lemma StackInterrupts<N>(g: map<N, set<N>>, base: set<N>, root: N, colour: map<N, Colour>, stack: seq<N>, order: seq<N>)
    requires Exploring(g, base, root, colour, stack, order) && stack != []
    ensures Interrupted(g, base, root, colour, order)
  {
    hide PostOrder, ReachesOutside;
    assert stack[0] in stack;
  }

  /** The explicit-stack search also knows that no GREY neighbour was met so far. */
  ghost predicate Doing<N>(g: map<N, set<N>>, base: set<N>, root: N, colour: map<N, Colour>, stack: seq<N>, order: seq<N>) {
    Exploring(g, base, root, colour, stack, order) && NoBackEdge(g, stack)
  }

  ghost function Blacks<N>(colour: map<N, Colour>): set<N> {
    set n | n in colour && colour[n] == Black
  }

  lemma DoStart<N>(g: map<N, set<N>>, root: N, colour: map<N, Colour>)
    requires WellFormed(g) && root in g && colour.Keys == g.Keys && forall n | n in g :: colour[n] != Grey
    ensures Doing(g, Blacks(colour) - {root}, root, colour, [], [])
    ensures Next(g, Blacks(colour) - {root}, root, [], [], root)
  {
    StartSearch(g, Blacks(colour) - {root}, root);
  }

  lemma Enter<N>(g: map<N, set<N>>, base: set<N>, root: N, colour: map<N, Colour>, stack: seq<N>, order: seq<N>, p: N)
    requires Exploring(g, base, root, colour, stack, order) && Next(g, base, root, stack, order, p)
    ensures Exploring(g, base, root, colour[p := Grey], stack + [p], order) && p in g && g[p] <= g.Keys
    ensures Seen(stack + [p], order) == Seen(stack, order) + {p} && p !in Seen(stack, order)
    ensures root in Seen(stack + [p], order)
  {
    hide Found, ReachesOutside;
    Push(g, base, root, stack, order, p);
    hide OnStack, PostOrder;
    assert Painted(g, base, root, colour[p := Grey], stack + [p], order);
  }

  /** What the colours of the top's neighbours say. */
  lemma TopColours<N>(g: map<N, set<N>>, base: set<N>, root: N, colour: map<N, Colour>, stack: seq<N>, order: seq<N>, c: N)
    requires Exploring(g, base, root, colour, stack, order) && stack != []
    requires stack[|stack| - 1] in g && c in g[stack[|stack| - 1]]
    ensures c in g && c in colour && root in Seen(stack, order)
    ensures colour[c] == White ==> Next(g, base, root, stack, order, c)
    ensures colour[c] == Grey <==> c in stack
    ensures colour[c] == Black <==> c in base || c in order
  {
    hide Found, PostOrder, ReachesOutside;
    assert stack[|stack| - 1] in stack && stack[0] in stack;
  }

  lemma Exit<N>(g: map<N, set<N>>, base: set<N>, root: N, colour: map<N, Colour>, stack: seq<N>, order: seq<N>)
    requires Exploring(g, base, root, colour, stack, order) && stack != [] && stack[|stack| - 1] in g
    requires forall c | c in g[stack[|stack| - 1]] :: c in base || c in order
    ensures Exploring(g, base, root, colour[stack[|stack| - 1] := Black], stack[..|stack| - 1], order + [stack[|stack| - 1]])
    ensures Seen(stack[..|stack| - 1], order + [stack[|stack| - 1]]) == Seen(stack, order)
    ensures root in Seen(stack, order)
  {
    var top := stack[|stack| - 1];
    TopFacts(g, base, root, stack, order);
    hide OnStack, PostOrder, Found, ReachesOutside;
    Pop(g, base, root, stack, order);
    assert Painted(g, base, root, colour[top := Black], stack[..|stack| - 1], order + [top]);
  }

  lemma TopFacts<N>(g: map<N, set<N>>, base: set<N>, root: N, stack: seq<N>, order: seq<N>)
    requires Searching(g, base, root, stack, order) && stack != []
    ensures root in stack && stack[|stack| - 1] in g && stack[|stack| - 1] !in order
    ensures forall x :: x in stack <==> x in stack[..|stack| - 1] || x == stack[|stack| - 1]
    ensures stack[|stack| - 1] !in stack[..|stack| - 1]
  {
    hide Found, PostOrder;
    assert stack[|stack| - 1] in stack && stack[0] in stack;
    assert stack == stack[..|stack| - 1] + [stack[|stack| - 1]];
  }

  lemma DoPush<N>(g: map<N, set<N>>, base: set<N>, root: N, colour: map<N, Colour>, stack: seq<N>, order: seq<N>, p: N)
    requires Doing(g, base, root, colour, stack, order) && Next(g, base, root, stack, order, p)
    requires forall u | u in g[p] && u in colour :: colour[p := Grey][u] != Grey
    ensures Doing(g, base, root, colour[p := Grey], stack + [p], order)
    ensures Seen(stack + [p], order) == Seen(stack, order) + {p} && p !in Seen(stack, order) && p in g
    ensures root in Seen(stack + [p], order)
    ensures forall c | c in g[p] && colour[p := Grey][c] == White :: Next(g, base, root, stack + [p], order, c)
  {
    Enter(g, base, root, colour, stack, order, p);
    var s := stack + [p];
    hide Searching, Painted;
    forall c | c in g[p] ensures colour[p := Grey][c] == White ==> Next(g, base, root, s, order, c)
                         ensures c !in s {
      TopColours(g, base, root, colour[p := Grey], s, order, c);
    }
    hide Next, Exploring;
    assert NoBackEdge(g, s);
  }

  lemma GreyEdge<N>(g: map<N, set<N>>, base: set<N>, root: N, colour: map<N, Colour>, stack: seq<N>, order: seq<N>, u: N)
    requires Exploring(g, base, root, colour, stack, order) && stack != [] && stack[|stack| - 1] in g
    requires u in g[stack[|stack| - 1]] && u in colour && colour[u] == Grey
    ensures LoopOutside(g, base, root)
  {
    TopColours(g, base, root, colour, stack, order, u);
    BackEdge(g, base, root, stack, order, u);
  }

  lemma DoBackEdge<N>(g: map<N, set<N>>, base: set<N>, root: N, colour: map<N, Colour>, stack: seq<N>, order: seq<N>, p: N, u: N)
    requires Doing(g, base, root, colour, stack, order) && Next(g, base, root, stack, order, p)
    requires u in g[p] && u in colour && colour[p := Grey][u] == Grey
    ensures LoopOutside(g, base, root) && Interrupted(g, base, root, colour[p := Grey], order)
  {
    Enter(g, base, root, colour, stack, order, p);
    StackInterrupts(g, base, root, colour[p := Grey], stack + [p], order);
    hide Interrupted;
    GreyEdge(g, base, root, colour[p := Grey], stack + [p], order, u);
  }

  lemma DoTop<N>(g: map<N, set<N>>, base: set<N>, root: N, colour: map<N, Colour>, stack: seq<N>, order: seq<N>)
    requires Doing(g, base, root, colour, stack, order) && stack != []
    ensures stack[|stack| - 1] in g && root in Seen(stack, order)
    ensures forall c | c in g[stack[|stack| - 1]] && c in colour && colour[c] == White :: Next(g, base, root, stack, order, c)
  {
    TopFacts(g, base, root, stack, order);
    hide Searching, Painted;
    forall c | c in g[stack[|stack| - 1]] && c in colour && colour[c] == White ensures Next(g, base, root, stack, order, c) {
      TopColours(g, base, root, colour, stack, order, c);
    }
  }

  lemma DoPop<N>(g: map<N, set<N>>, base: set<N>, root: N, colour: map<N, Colour>, stack: seq<N>, order: seq<N>)
    requires Doing(g, base, root, colour, stack, order) && stack != []
    requires forall c | c in g[stack[|stack| - 1]] && c in colour :: colour[c] != White
    ensures Doing(g, base, root, colour[stack[|stack| - 1] := Black], stack[..|stack| - 1], order + [stack[|stack| - 1]])
    ensures Seen(stack[..|stack| - 1], order + [stack[|stack| - 1]]) == Seen(stack, order)
    ensures root in Seen(stack, order)
  {
    TopFacts(g, base, root, stack, order);
    hide Searching, Painted;
    forall c | c in g[stack[|stack| - 1]] ensures c in base || c in order {
      TopColours(g, base, root, colour, stack, order, c);
      assert c !in stack by { hide Exploring, Next; }
    }
    Exit(g, base, root, colour, stack, order);
    hide Exploring;
  }

  lemma DoDone<N>(g: map<N, set<N>>, base: set<N>, root: N, colour: map<N, Colour>, order: seq<N>)
    requires Exploring(g, base, root, colour, [], order) && root in Seen([], order)
    ensures forall x :: x in order <==> ReachesOutside(g, base, root, x)
    ensures !LoopOutside(g, base, root) && PostOrder(g, base, order)
    ensures forall n | n in g :: colour[n] == if n in base || n in order then Black else White
  {
    SearchDone(g, base, root, order);
    hide Searching, PostOrder, LoopOutside, ReachesOutside;
  }
}

/** What collecting a target adds to a list that holds each prerequisite before its dependents. */
module Collecting {
  import opened Lists
  import opened Digraph
  import opened DepthFirst

  /** A target not collected before. */
  lemma NewTarget<N>(g: map<N, set<N>>, list: seq<N>, root: N, order: seq<N>)
    requires PostOrder(g, {}, list) && root in g && root !in list && PostOrder(g, Elems(list), order)
    requires forall x | x in g :: x in order <==> ReachesOutside(g, Elems(list), root, x)
    ensures PostOrder(g, {}, list + order)
    ensures forall x | x in g :: x in list + order <==> x in list || Reaches(g, root, x)
  {
    Append(g, list, order);
    forall x | x in g ensures x in list + order <==> x in list || Reaches(g, root, x) {
      if Reaches(g, root, x) { ReachesSplits(g, Elems(list), root, x); }
      if ReachesOutside(g, Elems(list), root, x) {
        var w :| WalkOutside(g, Elems(list), w) && w[0] == root && w[|w| - 1] == x;
        assert IsWalk(g, w);
      }
    }
  }

  /** A target already collected is appended a second time. */
  lemma OldTarget<N>(g: map<N, set<N>>, list: seq<N>, root: N)
    requires PostOrder(g, {}, list) && root in list
    ensures !LoopOutside(g, Elems(list) - {root}, root)
    ensures forall x :: ReachesOutside(g, Elems(list) - {root}, root, x) <==> x == root
  {
    var base := Elems(list) - {root};
    var i :| 0 <= i < |list| && list[i] == root;
    assert root !in list[..i];
    assert g[root] <= base by { assert g[list[i]] <= {} + Elems(list[..i]); }
    ReachesItself(g, base, root);
    forall w | WalkOutside(g, base, w) && w[0] == root ensures |w| == 1 {
      if |w| > 1 { WalkStep(g, w, 0); assert false; }
    }
  }

  lemma WalkStep<N>(g: map<N, set<N>>, w: seq<N>, i: nat)
    requires IsWalk(g, w) && i < |w| - 1
    ensures w[i + 1] in g[w[i]]
  {}

  lemma OnlyElement<N>(order: seq<N>, root: N)
    requires NoDup(order) && forall x :: x in order <==> x == root
    ensures order == [root]
  {
    assert root in order;
    assert |order| > 1 ==> order[0] != order[1];
    forall i | 0 <= i < |order| ensures order[i] == root { assert order[i] in order; }
  }
}
