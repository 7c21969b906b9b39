/** Morris traversals: no stack, but right pointers that are borrowed as threads
  * on the way down and given back on the way up. */
module Morris {
  import opened Lists
  import opened Trees

  /** The rightmost node. */
  ghost function Last(t: Tree): Node
    requires t.Branch?
  {
    if t.right.Leaf? then t.node else Last(t.right)
  }

  lemma {:induction false} LastIsInside(t: Tree)
    requires t.Branch?
    ensures Last(t) in Nodes(t)
  {
    if t.right.Branch? { LastIsInside(t.right); }
  }

  /** `s` is what is left of `t` after some steps to the right. */
  ghost predicate OnSpine(t: Tree, s: Tree) {
    s == t || (t.Branch? && OnSpine(t.right, s))
  }

  lemma {:induction false} SpineFacts(t: Tree, s: Tree)
    requires OnSpine(t, s)
    ensures s in Subtrees(t) && Nodes(s) <= Nodes(t)
    ensures s.Branch? ==> t.Branch? && Last(s) == Last(t) && OnSpine(t, s.right)
  {
    if s != t {
      SpineFacts(t.right, s);
    } else if s.Branch? {
      assert OnSpine(t.right, s.right);
    }
  }

  /** Different places in a tree have different nodes. */
  lemma {:induction false} PlaceOf(t: Tree, s: Tree, u: Tree)
    requires Distinct(t) && s in Subtrees(t) && u in Subtrees(t) && s.Branch? && u.Branch? && s.node == u.node
    ensures s == u
  {
    SubtreeNodes(t.left);
    SubtreeNodes(t.right);
    if s != t && u != t {
      PlaceOf(if s.node in Nodes(t.left) then t.left else t.right, s, u);
    }
  }

  lemma {:induction false} LastPlace(t: Tree) returns (s: Tree)
    requires t.Branch?
    ensures s in Subtrees(t) && s.Branch? && s.node == Last(t) && s.right == Leaf
  {
    s := t;
    if t.right.Branch? { s := LastPlace(t.right); }
  }

  // ---------------------------------------------------------------- threads

  /** The heap is the tree, except that some right pointers are threads. */
  ghost predicate Threaded(t: Tree, threads: map<Node, Node>)
    reads Nodes(t)
  {
    forall s | s in Subtrees(t) && s.Branch? ::
      && s.node in Nodes(t)
      && s.node.left == Root(s.left)
      && s.node.right == if s.node in threads then threads[s.node] else Root(s.right)
  }

  /** The subtrees on whose left sides the traversal is, outermost first; `now`
    * is what is left to do on the innermost left side. */
  ghost predicate Path(t: Tree, pending: seq<Tree>, now: Tree) {
    if pending == [] then OnSpine(t, now) else
    var top := pending[|pending| - 1];
    && top.Branch? && top.left.Branch? && OnSpine(top.left, now)
    && Path(t, pending[..|pending| - 1], top)
  }

  /** One thread for each pending subtree, from the last node of its left side to its root. */
  ghost function Threads(pending: seq<Tree>): map<Node, Node> {
    if pending == [] then map[] else
    var top := pending[|pending| - 1];
    var below := Threads(pending[..|pending| - 1]);
    if top.Branch? && top.left.Branch? then below[Last(top.left) := top.node] else below
  }

  /** Where the traversal stands: at the root of what is left, or back at the
    * innermost pending root, reached by its thread. */
  ghost function Cursor(pending: seq<Tree>, now: Tree): Node? {
    if now.Branch? then now.node
    else if pending == [] then null
    else Root(pending[|pending| - 1])
  }

  lemma {:induction false} PathIsInside(t: Tree, pending: seq<Tree>, now: Tree)
    requires Path(t, pending, now)
    ensures now in Subtrees(t)
    decreases |pending|
  {
    if pending == [] {
      SpineFacts(t, now);
    } else {
      var top := pending[|pending| - 1];
      PathIsInside(t, pending[..|pending| - 1], top);
      SpineFacts(top.left, now);
      SubtreesAreTransitive(t, top);
      SubtreesAreTransitive(t, top.left);
    }
  }

  /** The only thread that starts in what is left to do starts at its last node. */
  lemma {:induction false} ThreadsAvoid(t: Tree, pending: seq<Tree>, now: Tree, n: Node)
    requires Distinct(t) && Path(t, pending, now) && n in Threads(pending) && n in Nodes(now)
    ensures now.Branch? && n == Last(now)
    decreases |pending|
  {
    var below, top := pending[..|pending| - 1], pending[|pending| - 1];
    SpineFacts(top.left, now);
    if n != Last(top.left) {
      OutsideLeft(t, below, top);
      ThreadsAvoid(t, below, top, n);
    }
  }

  /** The last node of a pending subtree is not on its left side. */
  lemma OutsideLeft(t: Tree, below: seq<Tree>, top: Tree)
    requires Distinct(t) && Path(t, below, top) && top.Branch?
    ensures Distinct(top) && Last(top) !in Nodes(top.left)
  {
    PathIsInside(t, below, top);
    SubtreesAreTransitive(t, top);
    if top.right.Branch? { LastIsInside(top.right); }
  }

  /** No thread but the innermost one touches the left side of a pending subtree. */
  lemma LeftSideIsFree(t: Tree, below: seq<Tree>, top: Tree, n: Node)
    requires Distinct(t) && Path(t, below, top) && top.Branch? && n in Nodes(top.left)
    ensures n !in Threads(below)
  {
    OutsideLeft(t, below, top);
    if n in Threads(below) { ThreadsAvoid(t, below, top, n); }
  }

  /** A step to the right leads to what is left, or back up along a thread. */
  lemma RightStep(t: Tree, pending: seq<Tree>, s: Tree)
    requires Distinct(t) && Threaded(t, Threads(pending)) && Path(t, pending, s) && s.Branch?
    ensures s.node.right == Cursor(pending, s.right)
    ensures Path(t, pending, s.right)
  {
    PathIsInside(t, pending, s);
    SpineFacts(if pending == [] then t else pending[|pending| - 1].left, s);
    if s.node in Threads(pending) {
      ThreadsAvoid(t, pending, s, s.node);
      OutsideRight(t, s);
      assert s.node == Last(pending[|pending| - 1].left);
    }
  }

  lemma OutsideRight(t: Tree, s: Tree)
    requires Distinct(t) && s in Subtrees(t) && s.Branch? && s.node == Last(s)
    ensures s.right.Leaf?
  {
    SubtreesAreTransitive(t, s);
    if s.right.Branch? { LastIsInside(s.right); }
  }

  /** The in-order predecessor: rightwards from the left child, to the end of
    * the spine or to the thread that leads back. */
  method Predecessor(curr: Node, ghost t: Tree, ghost threads: map<Node, Node>, ghost l: Tree) returns (prev: Node)
    requires Distinct(t) && Threaded(t, threads) && l in Subtrees(t) && l.Branch? && curr.left == l.node
    requires curr !in Nodes(l)
    requires forall n | n in threads && n in Nodes(l) :: n == Last(l) && threads[n] == curr
    ensures Threaded(t, threads)
    ensures prev == Last(l) && prev in Nodes(l) && prev in Nodes(t)
    ensures prev.right == if prev in threads then curr else null
  {
    prev := curr.left;
    ghost var w := l;
    SpineFacts(l, l);
    while true
      invariant w in Subtrees(t) && OnSpine(l, w) && w.Branch? && prev == w.node
      invariant Threaded(t, threads)
      decreases w
    {
      SpineFacts(l, w);
      SubtreesAreTransitive(t, w);
      if w.right.Branch? {
        LastIsInside(w.right);
        SpineFacts(l, w.right);
      }
      if prev.right == null || prev.right == curr { break; }
      prev := prev.right;
      w := w.right;
    }
  }

  /** Stores the thread of a subtree whose left side comes next. */
  method Attach(prev: Node, curr: Node, ghost t: Tree, ghost pending: seq<Tree>, ghost now: Tree)
    requires Distinct(t) && Threaded(t, Threads(pending)) && Path(t, pending, now)
    requires now.Branch? && now.left.Branch? && curr == now.node && prev == Last(now.left) && prev in Nodes(t)
    modifies prev`right
    ensures Threaded(t, Threads(pending + [now]))
    ensures Path(t, pending + [now], now.left) && curr.left == Cursor(pending + [now], now.left)
  {
    assert (pending + [now])[..|pending|] == pending;
    PathIsInside(t, pending, now);
    LastIsInside(now.left);
    prev.right := curr;
  }

  /** Removes the innermost thread and so restores the pointer it was stored in. */
  method Detach(prev: Node, ghost t: Tree, ghost below: seq<Tree>, ghost top: Tree)
    requires Distinct(t) && Threaded(t, Threads(below + [top])) && Path(t, below, top)
    requires top.Branch? && top.left.Branch? && prev == Last(top.left) && prev in Nodes(t)
    modifies prev`right
    ensures Threaded(t, Threads(below))
  {
    assert (below + [top])[..|below|] == below;
    PathIsInside(t, below, top);
    LastIsInside(top.left);
    LeftSideIsFree(t, below, top, prev);
    ghost var place := LastPlace(top.left);
    SubtreesAreTransitive(t, top);
    SubtreesAreTransitive(t, top.left);
    forall s | s in Subtrees(t) && s.Branch? && s.node == prev ensures Root(s.right) == null {
      PlaceOf(t, s, place);
    }
    prev.right := null;
  }

  /** What the preorder traversal still has to visit. */
  ghost function PreorderLeft(pending: seq<Tree>): seq<Node> {
    if pending == [] then [] else
    var top := pending[|pending| - 1];
    (if top.Branch? then Preorder(top.right) else []) + PreorderLeft(pending[..|pending| - 1])
  }

  lemma PushPreorder(pending: seq<Tree>, t: Tree)
    requires t.Branch?
    ensures PreorderLeft(pending + [t]) == Preorder(t.right) + PreorderLeft(pending)
    ensures RightWork(pending + [t]) == 1 + 2 * Size(t.right) + RightWork(pending)
  {
    assert (pending + [t])[..|pending|] == pending;
  }

  // ---------------------------------------------------------------- the traversals

  /** The state of either traversal between two steps. */
  ghost predicate Standing(t: Tree, pending: seq<Tree>, now: Tree, curr: Node?)
    reads Nodes(t)
  {
    && Distinct(t) && Threaded(t, Threads(pending)) && Path(t, pending, now)
    && curr == Cursor(pending, now)
  }

  lemma Starts(root: Node?, t: Tree)
    requires IsTree(root, t)
    ensures Standing(t, [], t, root)
    ensures PreorderLeft([]) == [] && InorderLeft([]) == []
  {
  }

  lemma Ends(t: Tree, pending: seq<Tree>, now: Tree)
    requires Standing(t, pending, now, null)
    ensures now == Leaf && pending == [] && Linked(t)
  {
  }

  /** At a node without a left child. */
  lemma NoLeftChild(t: Tree, pending: seq<Tree>, now: Tree, curr: Node)
    requires Standing(t, pending, now, curr) && curr.left == null
    ensures now.Branch? && now.left == Leaf && curr == now.node
    ensures Standing(t, pending, now.right, curr.right)
  {
    PathIsInside(t, pending, now);
    if now.Leaf? {
      PathIsInside(t, pending[..|pending| - 1], pending[|pending| - 1]);
      assert false;
    }
    RightStep(t, pending, now);
  }

  /** At a node with a left child: either its left side comes next, or it has just been done. */
  lemma LeftChild(t: Tree, pending: seq<Tree>, now: Tree, curr: Node)
    requires Standing(t, pending, now, curr) && curr.left != null
    ensures now.Leaf? ==> pending != []
    ensures
      var here := if now.Branch? then now else pending[|pending| - 1];
      && here.Branch? && here.left.Branch? && curr == here.node && curr.left == here.left.node
      && here.left in Subtrees(t) && curr !in Nodes(here.left)
      && (forall n | n in Threads(pending) && n in Nodes(here.left) ::
            now.Leaf? && n == Last(here.left) && Threads(pending)[n] == curr)
      && (now.Leaf? ==> Last(here.left) in Threads(pending))
  {
    if now.Branch? {
      PathIsInside(t, pending, now);
      SubtreesAreTransitive(t, now);
      forall n | n in Nodes(now.left) ensures n !in Threads(pending) { LeftSideIsFree(t, pending, now, n); }
    } else {
      var below, top := pending[..|pending| - 1], pending[|pending| - 1];
      PathIsInside(t, below, top);
      SubtreesAreTransitive(t, top);
      forall n | n in Nodes(top.left) ensures n !in Threads(below) { LeftSideIsFree(t, below, top, n); }
    }
  }

  // The shape `t` names the nodes and fixes both pointers of each of them, so
  // `IsTree` afterwards says that every pointer is as it was.

  method MorrisPreorder(root: Node?, ghost t: Tree) returns (out: seq<Node>)
    requires IsTree(root, t)
    modifies Nodes(t)
    ensures out == Preorder(t)
    ensures IsTree(root, t)
  {
    var curr := root;
    ghost var pending: seq<Tree>, now := [], t;
    out := [];
    Starts(root, t);
    assert [] + (Preorder(t) + []) == Preorder(t);
    hide Threaded, Threads, Path, Cursor, Distinct, Linked, WorkLeft, PreorderLeft, Preorder;
    while curr != null
      invariant Standing(t, pending, now, curr)
      invariant out + (Preorder(now) + PreorderLeft(pending)) == Preorder(t)
      decreases WorkLeft(pending, now)
    {
      if curr.left == null {
        NoLeftChild(t, pending, now, curr);
        PreorderLeaf(out, pending, now);
        out := out + [curr];
        curr := curr.right;
        now := now.right;
        continue;
      }
      LeftChild(t, pending, now, curr);
      ghost var here := if now.Branch? then now else pending[|pending| - 1];
      var prev := Predecessor(curr, t, Threads(pending), here.left);
      if prev.right == null {
        assert now.Branch?;
        PreorderDown(out, pending, now);
        out := out + [curr];
        Attach(prev, curr, t, pending, now);
        curr := curr.left;
        pending, now := pending + [now], now.left;
      } else {
        assert prev in Threads(pending) && now.Leaf?;
        ghost var below := pending[..|pending| - 1];
        PathBelow(t, pending, now);
        PreorderUp(below, here);
        Detach(prev, t, below, here);
        RightStep(t, below, here);
        curr := curr.right;
        pending, now := below, here.right;
      }
    }
    Ends(t, pending, now);
    PreorderEnds(out);
  }

  lemma PathBelow(t: Tree, pending: seq<Tree>, now: Tree)
    requires pending != [] && Path(t, pending, now)
    ensures pending == pending[..|pending| - 1] + [pending[|pending| - 1]]
    ensures Path(t, pending[..|pending| - 1], pending[|pending| - 1])
  {
  }

  lemma PreorderLeaf(out: seq<Node>, pending: seq<Tree>, now: Tree)
    requires now.Branch? && now.left == Leaf
    ensures (out + [now.node]) + (Preorder(now.right) + PreorderLeft(pending))
      == out + (Preorder(now) + PreorderLeft(pending))
    ensures WorkLeft(pending, now.right) < WorkLeft(pending, now)
  {
    assert Preorder(now) == [now.node] + [] + Preorder(now.right);
    hide Preorder, PreorderLeft;
    Trivial<Node>([now.node]);
    Regroup4<Node>(out, [now.node], Preorder(now.right), PreorderLeft(pending));
    Regroup<Node>(out + [now.node], Preorder(now.right), PreorderLeft(pending));
  }

  lemma PreorderDown(out: seq<Node>, pending: seq<Tree>, now: Tree)
    requires now.Branch?
    ensures (out + [now.node]) + (Preorder(now.left) + PreorderLeft(pending + [now]))
      == out + (Preorder(now) + PreorderLeft(pending))
    ensures WorkLeft(pending + [now], now.left) < WorkLeft(pending, now)
  {
    PushPreorder(pending, now);
    assert Preorder(now) == [now.node] + Preorder(now.left) + Preorder(now.right);
    hide Preorder, PreorderLeft;
    var l, r, left := Preorder(now.left), Preorder(now.right), PreorderLeft(pending);
    Regroup<Node>(out, [now.node], l + (r + left));
    Regroup<Node>([now.node] + l, r, left);
    Regroup<Node>([now.node], l, r + left);
  }

  lemma PreorderUp(below: seq<Tree>, top: Tree)
    requires top.Branch?
    ensures Preorder(top.right) + PreorderLeft(below) == Preorder(Leaf) + PreorderLeft(below + [top])
    ensures WorkLeft(below, top.right) < WorkLeft(below + [top], Leaf)
  {
    PushPreorder(below, top);
  }

  lemma PreorderEnds(out: seq<Node>)
    ensures out + (Preorder(Leaf) + PreorderLeft([])) == out
  {
  }

  method MorrisInorder(root: Node?, ghost t: Tree) returns (out: seq<Node>)
    requires IsTree(root, t)
    modifies Nodes(t)
    ensures out == Inorder(t)
    ensures IsTree(root, t)
  {
    var curr := root;
    ghost var pending: seq<Tree>, now := [], t;
    out := [];
    Starts(root, t);
    assert [] + (Inorder(t) + []) == Inorder(t);
    hide Threaded, Threads, Path, Cursor, Distinct, Linked, WorkLeft, InorderLeft, Inorder;
    while curr != null
      invariant Standing(t, pending, now, curr)
      invariant out + (Inorder(now) + InorderLeft(pending)) == Inorder(t)
      decreases WorkLeft(pending, now)
    {
      if curr.left == null {
        NoLeftChild(t, pending, now, curr);
        InorderLeaf(out, pending, now);
        out := out + [curr];
        curr := curr.right;
        now := now.right;
        continue;
      }
      LeftChild(t, pending, now, curr);
      ghost var here := if now.Branch? then now else pending[|pending| - 1];
      var prev := Predecessor(curr, t, Threads(pending), here.left);
      if prev.right == null {
        assert now.Branch?;
        InorderDown(pending, now);
        Attach(prev, curr, t, pending, now);
        curr := curr.left;
        pending, now := pending + [now], now.left;
      } else {
        assert prev in Threads(pending) && now.Leaf?;
        ghost var below := pending[..|pending| - 1];
        PathBelow(t, pending, now);
        InorderUp(out, below, here);
        out := out + [curr];
        Detach(prev, t, below, here);
        RightStep(t, below, here);
        curr := curr.right;
        pending, now := below, here.right;
      }
    }
    Ends(t, pending, now);
    InorderEnds(out);
  }

  lemma InorderLeaf(out: seq<Node>, pending: seq<Tree>, now: Tree)
    requires now.Branch? && now.left == Leaf
    ensures (out + [now.node]) + (Inorder(now.right) + InorderLeft(pending))
      == out + (Inorder(now) + InorderLeft(pending))
    ensures WorkLeft(pending, now.right) < WorkLeft(pending, now)
  {
    assert Inorder(now) == [] + [now.node] + Inorder(now.right);
    hide Inorder, InorderLeft;
    Trivial<Node>([now.node]);
    Regroup4<Node>(out, [now.node], Inorder(now.right), InorderLeft(pending));
    Regroup<Node>(out + [now.node], Inorder(now.right), InorderLeft(pending));
  }

  lemma InorderEnds(out: seq<Node>)
    ensures out + (Inorder(Leaf) + InorderLeft([])) == out
  {
  }
}
