/** Traversals with explicit stacks. The stacks hold nodes; the proofs keep the
  * subtrees those nodes stand for. */
module StackTraversals {
  import opened Lists
  import opened Trees

  /** The nodes at the roots of some subtrees of a tree. */
  ghost predicate StandFor(s: seq<Node>, trees: seq<Tree>, t: Tree) {
    && |s| == |trees|
    && forall i :: 0 <= i < |s| ==> trees[i].Branch? && trees[i] in Subtrees(t) && s[i] == trees[i].node
  }

  // ---------------------------------------------------------------- preorder

  /** What is left to visit when these subtrees are on the stack, the last one on top. */
  ghost function PreorderLeft(trees: seq<Tree>): seq<Node> {
    if trees == [] then []
    else Preorder(trees[|trees| - 1]) + PreorderLeft(trees[..|trees| - 1])
  }

  ghost function TotalSize(trees: seq<Tree>): nat {
    if trees == [] then 0 else Size(trees[|trees| - 1]) + TotalSize(trees[..|trees| - 1])
  }

  lemma PushTree(trees: seq<Tree>, t: Tree)
    ensures PreorderLeft(trees + [t]) == Preorder(t) + PreorderLeft(trees)
    ensures TotalSize(trees + [t]) == Size(t) + TotalSize(trees)
  {
    assert (trees + [t])[..|trees|] == trees;
  }

  ghost function NonEmpty(t: Tree): seq<Tree> {
    if t.Leaf? then [] else [t]
  }

  /** Replacing the tree on top by its children, the left one uppermost. */
  lemma VisitRoot(below: seq<Tree>, top: Tree)
    requires top.Branch?
    ensures
      var trees := below + NonEmpty(top.right) + NonEmpty(top.left);
      && PreorderLeft(below + [top]) == [top.node] + PreorderLeft(trees)
      && TotalSize(trees) < TotalSize(below + [top])
  {
    hide TotalSize, PreorderLeft;
    PushTree(below, top);
    PushMaybe(below, top.right);
    PushMaybe(below + NonEmpty(top.right), top.left);
    assert Preorder(top) == [top.node] + Preorder(top.left) + Preorder(top.right);
    hide Preorder;
  }

  lemma PushMaybe(trees: seq<Tree>, t: Tree)
    ensures PreorderLeft(trees + NonEmpty(t)) == Preorder(t) + PreorderLeft(trees)
    ensures TotalSize(trees + NonEmpty(t)) == Size(t) + TotalSize(trees)
  {
    PushTree(trees, t);
    assert t.Leaf? ==> trees + NonEmpty(t) == trees;
  }

  /** The stack after the top node is replaced by its children. */
  lemma ChildrenStandFor(s: seq<Node>, trees: seq<Tree>, t: Tree)
    requires Linked(t) && StandFor(s, trees, t) && s != []
    ensures
      var k := |s| - 1;
      var p, top := s[k], trees[k];
      var right := if p.right == null then [] else [p.right];
      var left := if p.left == null then [] else [p.left];
      && top.Branch? && p == top.node && trees == trees[..k] + [top]
      && StandFor(s[..k] + right + left, trees[..k] + NonEmpty(top.right) + NonEmpty(top.left), t)
  {
    var k := |s| - 1;
    LinkedAt(t, trees[k]);
  }

  /** The root must exist: the loop starts by visiting it. */
  method StackPreorder(root: Node, ghost t: Tree) returns (out: seq<Node>)
    requires IsTree(root, t)
    ensures out == Preorder(t)
  {
    var s: seq<Node> := [root];
    ghost var trees := [t];
    out := [];
    PreorderStarts(t);
    hide Linked, Distinct, TotalSize, PreorderLeft, Preorder, NonEmpty, Subtrees;
    while s != []
      invariant Linked(t) && StandFor(s, trees, t)
      invariant out + PreorderLeft(trees) == Preorder(t)
      decreases TotalSize(trees)
    {
      ChildrenStandFor(s, trees, t);
      var p := s[|s| - 1];
      ghost var below, top := trees[..|s| - 1], trees[|s| - 1];
      VisitRoot(below, top);
      hide StandFor;
      ghost var after := below + NonEmpty(top.right) + NonEmpty(top.left);
      Regroup<Node>(out, [p], PreorderLeft(after));
      s := s[..|s| - 1];
      out := out + [p];
      if p.right != null { s := s + [p.right]; }
      if p.left != null { s := s + [p.left]; }
      trees := after;
    }
    NothingLeft(out, trees);
  }

  lemma PreorderStarts(t: Tree)
    ensures [] + PreorderLeft([t]) == Preorder(t) && t in Subtrees(t)
  {
    PushTree([], t);
    assert [] + [t] == [t];
  }

  lemma NothingLeft(out: seq<Node>, trees: seq<Tree>)
    requires trees == []
    ensures out + PreorderLeft(trees) == out
  {
  }

  // ---------------------------------------------------------------- inorder

  /** The stack of nodes whose left subtrees are being visited. */
  ghost function Roots(trees: seq<Tree>): seq<Node> {
    if trees == [] then []
    else Roots(trees[..|trees| - 1]) + if trees[|trees| - 1].Branch? then [trees[|trees| - 1].node] else []
  }

  ghost function RightChild(t: Tree): seq<Node> {
    if t.Leaf? || t.right.Leaf? then [] else [t.right.node]
  }

  /** Their right children, which wait on the second stack. */
  ghost function Waiting(trees: seq<Tree>): seq<Node> {
    if trees == [] then [] else Waiting(trees[..|trees| - 1]) + RightChild(trees[|trees| - 1])
  }

  lemma PushRoots(trees: seq<Tree>, t: Tree)
    requires t.Branch?
    ensures Roots(trees + [t]) == Roots(trees) + [t.node]
    ensures Waiting(trees + [t]) == Waiting(trees) + RightChild(t)
  {
    assert (trees + [t])[..|trees|] == trees;
  }

  ghost predicate InorderState(trees: seq<Tree>, now: Tree, out: seq<Node>, t: Tree) {
    && (forall i :: 0 <= i < |trees| ==> trees[i].Branch? && trees[i] in Subtrees(t))
    && now in Subtrees(t)
    && out + (Inorder(now) + InorderLeft(trees)) == Inorder(t)
  }

  lemma InorderStarts(t: Tree)
    ensures InorderState([], t, [], t)
    ensures Roots([]) == Waiting([]) == []
  {
  }

  lemma InorderEnds(trees: seq<Tree>, out: seq<Node>, t: Tree)
    requires InorderState(trees, Leaf, out, t) && Roots(trees) == []
    ensures out == Inorder(t)
  {
    if trees != [] { RootsAreNotEmpty(trees, Leaf, out, t); }
  }

  lemma RootsAreNotEmpty(trees: seq<Tree>, now: Tree, out: seq<Node>, t: Tree)
    requires InorderState(trees, now, out, t) && trees != []
    ensures Roots(trees) != []
  {
    assert trees[|trees| - 1].Branch?;
  }

  /** A node goes on the stack, and its left subtree comes next. */
  lemma GoLeft(trees: seq<Tree>, now: Tree, out: seq<Node>, t: Tree)
    requires Linked(t) && InorderState(trees, now, out, t) && now.Branch?
    ensures InorderState(trees + [now], now.left, out, t)
    ensures now.node.left == Root(now.left)
    ensures RightChild(now) == if now.node.right == null then [] else [now.node.right]
    ensures WorkLeft(trees + [now], now.left) < WorkLeft(trees, now)
  {
    LinkedAt(t, now);
    InorderDown(trees, now);
  }

  /** The top node is visited, and its right subtree comes next. */
  lemma GoRight(below: seq<Tree>, top: Tree, out: seq<Node>, t: Tree)
    requires Linked(t) && InorderState(below + [top], Leaf, out, t)
    ensures top.Branch? && InorderState(below, top.right, out + [top.node], t)
    ensures top.node.right == Root(top.right)
    ensures RightChild(top) == if top.node.right == null then [] else [top.node.right]
    ensures WorkLeft(below, top.right) < WorkLeft(below + [top], Leaf)
  {
    var all := below + [top];
    assert all[|below|] == top && forall i :: 0 <= i < |below| ==> all[i] == below[i];
    LinkedAt(t, top);
    InorderUp(out, below, top);
  }

  lemma TopTree(trees: seq<Tree>) returns (below: seq<Tree>, top: Tree)
    requires Roots(trees) != []
    ensures trees == below + [top]
  {
    below, top := trees[..|trees| - 1], trees[|trees| - 1];
  }

  method StackInorder(root: Node?, ghost t: Tree) returns (out: seq<Node>)
    requires IsTree(root, t)
    ensures out == Inorder(t)
  {
    hide Linked, Distinct, Inorder, InorderState, WorkLeft, InorderLeft, RightWork;
    var s: seq<Node>, p := [], root;
    ghost var trees: seq<Tree>, now := [], t;
    out := [];
    InorderStarts(t);
    hide Roots;
    while true
      invariant Linked(t) && InorderState(trees, now, out, t) && p == Root(now)
      invariant s == Roots(trees)
      decreases WorkLeft(trees, now)
    {
      if p != null {
        GoLeft(trees, now, out, t);
        PushRoots(trees, now);
        s := s + [p];
        p := p.left;
        trees, now := trees + [now], now.left;
      } else {
        if s == [] { break; }
        ghost var below, top := TopTree(trees);
        GoRight(below, top, out, t);
        PushRoots(below, top);
        p := s[|s| - 1];
        s := s[..|s| - 1];
        out := out + [p];
        p := p.right;
        trees, now := below, top.right;
      }
    }
    InorderEnds(trees, out, t);
  }

  // ---------------------------------------------------------------- two stacks, inorder

  function Peek(s: seq<Node>): Node? {
    if s == [] then null else s[|s| - 1]
  }

  method TwoStackInorder(root: Node?, ghost t: Tree) returns (out: seq<Node>)
    requires IsTree(root, t)
    ensures out == Inorder(t)
  {
    hide Linked, Distinct, Inorder, InorderState, WorkLeft, InorderLeft, RightWork;
    var s1: seq<Node>, s2: seq<Node>, p := [], [], root;
    ghost var trees: seq<Tree>, now := [], t;
    out := [];
    InorderStarts(t);
    hide Roots, Waiting, RightChild;
    while true
      invariant Linked(t) && InorderState(trees, now, out, t) && p == Root(now)
      invariant s1 == Roots(trees) && s2 == Waiting(trees)
      decreases WorkLeft(trees, now)
    {
      ghost var work := WorkLeft(trees, now);
      while p != null
        invariant Linked(t) && InorderState(trees, now, out, t) && p == Root(now)
        invariant s1 == Roots(trees) && s2 == Waiting(trees)
        invariant WorkLeft(trees, now) <= work
        decreases WorkLeft(trees, now)
      {
        GoLeft(trees, now, out, t);
        PushRoots(trees, now);
        if p.right != null { s2 := s2 + [p.right]; }
        s1 := s1 + [p];
        p := p.left;
        trees, now := trees + [now], now.left;
      }
      if s1 == [] { break; }
      ghost var below, top := TopTree(trees);
      GoRight(below, top, out, t);
      PushRoots(below, top);
      p := s1[|s1| - 1];
      s1 := s1[..|s1| - 1];
      out := out + [p];
      if p.right != null && p.right == Peek(s2) {
        s2 := s2[..|s2| - 1];
        p := p.right;
      } else {
        p := null;
      }
      trees, now := below, top.right;
    }
    InorderEnds(trees, out, t);
  }

  // ---------------------------------------------------------------- postorder

  /** A node on the stack: either its left subtree is being visited, and its
    * right child still waits, or its right subtree is being visited. */
  datatype Frame = InLeft(t: Tree) | InRight(t: Tree)

  /** The subtree that is being visited. */
  ghost function Side(f: Frame): Tree
    requires f.t.Branch?
  {
    if f.InLeft? then f.t.left else f.t.right
  }

  ghost function Wait(f: Frame): seq<Node> {
    if f.InLeft? then RightChild(f.t) else []
  }

  ghost function Own(f: Frame): seq<Node> {
    if f.t.Branch? then [f.t.node] else []
  }

  /** The nodes whose turn comes after their subtrees. */
  ghost function Owns(frames: seq<Frame>): seq<Node> {
    if frames == [] then [] else Owns(frames[..|frames| - 1]) + Own(frames[|frames| - 1])
  }

  ghost function Waits(frames: seq<Frame>): seq<Node> {
    if frames == [] then [] else Waits(frames[..|frames| - 1]) + Wait(frames[|frames| - 1])
  }

  /** Both on one stack, a node above its waiting child. */
  ghost function Entries(frames: seq<Frame>): seq<Node> {
    if frames == [] then []
    else Entries(frames[..|frames| - 1]) + Wait(frames[|frames| - 1]) + Own(frames[|frames| - 1])
  }

  ghost function ToVisit(f: Frame): seq<Node> {
    (if f.InLeft? && f.t.Branch? then Postorder(f.t.right) else []) + Own(f)
  }

  ghost function PostorderLeft(frames: seq<Frame>): seq<Node> {
    if frames == [] then [] else ToVisit(frames[|frames| - 1]) + PostorderLeft(frames[..|frames| - 1])
  }

  ghost function FrameWork(frames: seq<Frame>): nat {
    if frames == [] then 0 else
    var f := frames[|frames| - 1];
    (if f.InLeft? then 2 + 3 * RightSize(f.t) else 1) + FrameWork(frames[..|frames| - 1])
  }

  ghost function Work(frames: seq<Frame>, now: Tree): nat {
    3 * Size(now) + FrameWork(frames)
  }

  lemma PushFrame(frames: seq<Frame>, f: Frame)
    ensures Owns(frames + [f]) == Owns(frames) + Own(f)
    ensures Waits(frames + [f]) == Waits(frames) + Wait(f)
    ensures Entries(frames + [f]) == Entries(frames) + Wait(f) + Own(f)
    ensures PostorderLeft(frames + [f]) == ToVisit(f) + PostorderLeft(frames)
    ensures FrameWork(frames + [f])
      == (if f.InLeft? then 2 + 3 * RightSize(f.t) else 1) + FrameWork(frames)
  {
    assert (frames + [f])[..|frames|] == frames;
  }

  /** Each frame lies in the part that the frames below it are visiting, and so
    * does the subtree that comes next. */
  ghost predicate Nested(frames: seq<Frame>, now: Tree, t: Tree) {
    && (forall i :: 0 <= i < |frames| ==> frames[i].t.Branch? && frames[i].t in Subtrees(t))
    && (forall i, j :: 0 <= i < j < |frames| ==> frames[j].t in Subtrees(Side(frames[i])))
    && (forall i :: 0 <= i < |frames| ==> now in Subtrees(Side(frames[i])))
    && now in Subtrees(t)
  }

  ghost predicate Visiting(frames: seq<Frame>, now: Tree, out: seq<Node>, t: Tree) {
    && Nested(frames, now, t)
    && out + (Postorder(now) + PostorderLeft(frames)) == Postorder(t)
  }

  lemma VisitingStarts(t: Tree)
    ensures Visiting([], t, [], t)
    ensures Owns([]) == Waits([]) == Entries([]) == []
  {
  }

  lemma VisitingEnds(frames: seq<Frame>, out: seq<Node>, t: Tree)
    requires Visiting(frames, Leaf, out, t)
    requires Owns(frames) == [] || Entries(frames) == []
    ensures out == Postorder(t)
  {
    if frames != [] { StacksAreNotEmpty(frames, Leaf, t); }
  }

  lemma StacksAreNotEmpty(frames: seq<Frame>, now: Tree, t: Tree)
    requires Nested(frames, now, t) && frames != []
    ensures Owns(frames) != [] && Entries(frames) != []
  {
    assert frames[|frames| - 1].t.Branch?;
  }

  /** A node with a subtree is put on the stack and its left subtree comes next. */
  lemma Descend(frames: seq<Frame>, now: Tree, out: seq<Node>, t: Tree)
    requires Visiting(frames, now, out, t) && now.Branch?
    ensures Visiting(frames + [InLeft(now)], now.left, out, t)
    ensures Work(frames + [InLeft(now)], now.left) < Work(frames, now)
  {
    DescendNested(frames, now, t);
    hide Nested;
    DescendOutput(frames, now);
  }

  lemma DescendOutput(frames: seq<Frame>, now: Tree)
    requires now.Branch?
    ensures Postorder(now.left) + PostorderLeft(frames + [InLeft(now)]) == Postorder(now) + PostorderLeft(frames)
    ensures Work(frames + [InLeft(now)], now.left) < Work(frames, now)
  {
    PushFrame(frames, InLeft(now));
    assert Postorder(now) == Postorder(now.left) + Postorder(now.right) + [now.node];
    assert ToVisit(InLeft(now)) == Postorder(now.right) + [now.node];
    hide PostorderLeft, FrameWork, Postorder, ToVisit;
    Regroup4<Node>(Postorder(now.left), Postorder(now.right), [now.node], PostorderLeft(frames));
  }

  lemma DescendNested(frames: seq<Frame>, now: Tree, t: Tree)
    requires Nested(frames, now, t) && now.Branch?
    ensures Nested(frames + [InLeft(now)], now.left, t)
  {
    SubtreesAreTransitive(t, now);
    forall i | 0 <= i < |frames| ensures now.left in Subtrees(Side(frames[i])) {
      SubtreesAreTransitive(Side(frames[i]), now);
    }
    assert now.left in Subtrees(now.left);
  }

  /** The top node's right subtree comes next. */
  lemma TurnRight(frames: seq<Frame>, top: Tree, out: seq<Node>, t: Tree)
    requires Visiting(frames + [InLeft(top)], Leaf, out, t)
    ensures Visiting(frames + [InRight(top)], top.right, out, t)
    ensures Work(frames + [InRight(top)], top.right) < Work(frames + [InLeft(top)], Leaf)
  {
    assert (frames + [InLeft(top)])[|frames|].t == top;
    TurnNested(frames, top, t);
    hide Nested;
    TurnOutput(frames, top);
  }

  lemma TurnOutput(frames: seq<Frame>, top: Tree)
    requires top.Branch?
    ensures Postorder(top.right) + PostorderLeft(frames + [InRight(top)])
      == Postorder(Leaf) + PostorderLeft(frames + [InLeft(top)])
    ensures Work(frames + [InRight(top)], top.right) < Work(frames + [InLeft(top)], Leaf)
  {
    PushFrame(frames, InLeft(top));
    PushFrame(frames, InRight(top));
    var r, left := Postorder(top.right), PostorderLeft(frames);
    assert ToVisit(InLeft(top)) == r + [top.node] && Postorder(Leaf) == [];
    assert ToVisit(InRight(top)) == [top.node] by { Trivial<Node>([top.node]); }
    hide PostorderLeft, FrameWork, Postorder, ToVisit;
    Trivial<Node>((r + [top.node]) + left);
    Regroup<Node>(r, [top.node], left);
  }

  lemma TurnNested(frames: seq<Frame>, top: Tree, t: Tree)
    requires Nested(frames + [InLeft(top)], Leaf, t) && top.Branch?
    ensures Nested(frames + [InRight(top)], top.right, t)
  {
    BelowTop(frames, InLeft(top), Leaf, t);
    SubtreesAreTransitive(t, top);
    forall i | 0 <= i < |frames| ensures top.right in Subtrees(Side(frames[i])) {
      SubtreesAreTransitive(Side(frames[i]), top);
    }
    assert top.right in Subtrees(top.right);
  }

  lemma BelowTop(frames: seq<Frame>, f: Frame, now: Tree, t: Tree)
    requires Nested(frames + [f], now, t)
    ensures Nested(frames, f.t, t) && f.t.Branch?
  {
    var all := frames + [f];
    assert all[|frames|] == f;
    assert forall i :: 0 <= i < |frames| ==> all[i] == frames[i];
  }

  /** The top node is visited and leaves the stack. */
  lemma Visit(frames: seq<Frame>, f: Frame, out: seq<Node>, t: Tree)
    requires Visiting(frames + [f], Leaf, out, t) && f.t.Branch? && (f.InLeft? ==> f.t.right.Leaf?)
    ensures Visiting(frames, Leaf, out + [f.t.node], t)
    ensures Work(frames, Leaf) < Work(frames + [f], Leaf)
  {
    BelowTop(frames, f, Leaf, t);
    LeafIsEverywhere(t);
    forall i | 0 <= i < |frames| ensures Leaf in Subtrees(Side(frames[i])) {
      LeafIsEverywhere(Side(frames[i]));
    }
    hide Nested;
    VisitOutput(frames, f, out);
  }

  lemma VisitOutput(frames: seq<Frame>, f: Frame, out: seq<Node>)
    requires f.t.Branch? && (f.InLeft? ==> f.t.right.Leaf?)
    ensures (out + [f.t.node]) + (Postorder(Leaf) + PostorderLeft(frames))
      == out + (Postorder(Leaf) + PostorderLeft(frames + [f]))
    ensures Work(frames, Leaf) < Work(frames + [f], Leaf)
  {
    PushFrame(frames, f);
    assert Postorder(Leaf) == [];
    assert ToVisit(f) == [f.t.node] by { Trivial<Node>([f.t.node]); }
    hide PostorderLeft, FrameWork, Postorder, ToVisit;
    Trivial<Node>([f.t.node] + PostorderLeft(frames));
    Trivial<Node>(PostorderLeft(frames));
    Regroup<Node>(out, [f.t.node], PostorderLeft(frames));
  }

  lemma {:induction false} LeafIsEverywhere(t: Tree)
    ensures Leaf in Subtrees(t)
  {
    if t.Branch? { LeafIsEverywhere(t.left); }
  }

  /** A right child that no longer waits is not found on any stack. */
  lemma NoFalseMatch(frames: seq<Frame>, top: Tree, t: Tree)
    requires Nested(frames, top, t) && Distinct(t) && top.Branch? && top.right.Branch?
    ensures top.right.node !in Entries(frames) && top.right.node !in Waits(frames)
    decreases |frames|
  {
    if frames != [] {
      var f := frames[|frames| - 1];
      var below := frames[..|frames| - 1];
      NoFalseMatch(below, top, t);
      SubtreesAreTransitive(t, f.t);
      SubtreesAreTransitive(Side(f), top);
      SubtreeNodes(Side(f));
      assert top.right.node in Nodes(Side(f));
      assert f.t.right.Branch? ==> f.t.right.node in Nodes(f.t.right);
    }
  }

  /** What the test at the top of the stack finds. */
  lemma TopOfStack(frames: seq<Frame>, f: Frame, out: seq<Node>, t: Tree)
    requires Visiting(frames + [f], Leaf, out, t) && Linked(t) && Distinct(t)
    ensures f.t.Branch? && f.t.node.right == Root(f.t.right)
    ensures
      var ready := f.t.node.right != null && f.InLeft?;
      && (ready <==> f.t.node.right != null && f.t.node.right == Peek(Entries(frames) + Wait(f)))
      && (ready <==> f.t.node.right != null && f.t.node.right == Peek(Waits(frames) + Wait(f)))
  {
    BelowTop(frames, f, Leaf, t);
    LinkedAt(t, f.t);
    if f.InRight? && f.t.right.Branch? {
      NoFalseMatch(frames, f.t, t);
    }
  }

  /** What pushing and popping a frame does to the single stack. */
  lemma TopEntries(below: seq<Frame>, f: Frame)
    requires f.t.Branch?
    ensures Entries(below + [f]) == (Entries(below) + Wait(f)) + [f.t.node]
    ensures Entries(below + [f])[|Entries(below + [f])| - 1] == f.t.node
    ensures Entries(below + [f])[..|Entries(below + [f])| - 1] == Entries(below) + Wait(f)
    ensures |Wait(f)| == 1 ==> (Entries(below) + Wait(f))[..|Entries(below) + Wait(f)| - 1] == Entries(below)
    ensures Wait(f) == [] ==> Entries(below) + Wait(f) == Entries(below)
  {
    PushFrame(below, f);
    hide Entries, Wait;
  }

  method StackPostorder(root: Node?, ghost t: Tree) returns (out: seq<Node>)
    requires IsTree(root, t)
    ensures out == Postorder(t)
  {
    hide Linked, Distinct, Postorder, Visiting, Work, Entries, Waits, Owns, PostorderLeft, FrameWork;
    var s: seq<Node>, p := [], root;
    ghost var frames: seq<Frame>, now := [], t;
    out := [];
    VisitingStarts(t);
    while true
      invariant Linked(t) && Visiting(frames, now, out, t) && p == Root(now)
      invariant s == Entries(frames)
      decreases Work(frames, now)
    {
      ghost var work := Work(frames, now);
      while p != null
        invariant Linked(t) && Visiting(frames, now, out, t) && p == Root(now)
        invariant s == Entries(frames)
        invariant Work(frames, now) <= work
        decreases Work(frames, now)
      {
        NowIsLinked(frames, now, out, t);
        Descend(frames, now, out, t);
        TopEntries(frames, InLeft(now));
        if p.right != null { s := s + [p.right]; }
        s := s + [p];
        p := p.left;
        frames, now := frames + [InLeft(now)], now.left;
      }
      if s == [] { break; }
      ghost var below, f := Split(frames);
      TopOfStack(below, f, out, t);
      TopEntries(below, f);
      p := s[|s| - 1];
      s := s[..|s| - 1];
      if p.right != null && p.right == Peek(s) {
        TurnRight(below, f.t, out, t);
        TopEntries(below, InRight(f.t));
        s := s[..|s| - 1];
        s := s + [p];
        p := p.right;
        frames, now := below + [InRight(f.t)], f.t.right;
      } else {
        Visit(below, f, out, t);
        out := out + [p];
        p := null;
        frames, now := below, Leaf;
      }
    }
    VisitingEnds(frames, out, t);
  }

  lemma NowIsLinked(frames: seq<Frame>, now: Tree, out: seq<Node>, t: Tree)
    requires Linked(t) && Visiting(frames, now, out, t) && now.Branch?
    ensures now.node.left == Root(now.left) && now.node.right == Root(now.right)
    ensures RightChild(now) == if now.node.right == null then [] else [now.node.right]
  {
    LinkedAt(t, now);
  }

  lemma Split(frames: seq<Frame>) returns (below: seq<Frame>, f: Frame)
    requires Owns(frames) != [] || Entries(frames) != []
    ensures frames == below + [f]
  {
    below, f := frames[..|frames| - 1], frames[|frames| - 1];
  }

  method TwoStackPostorder(root: Node?, ghost t: Tree) returns (out: seq<Node>)
    requires IsTree(root, t)
    ensures out == Postorder(t)
  {
    hide Linked, Distinct, Postorder, Visiting, Work, Entries, Waits, Owns, PostorderLeft, FrameWork;
    var s1: seq<Node>, s2: seq<Node>, p := [], [], root;
    ghost var frames: seq<Frame>, now := [], t;
    out := [];
    VisitingStarts(t);
    while true
      invariant Linked(t) && Visiting(frames, now, out, t) && p == Root(now)
      invariant s1 == Owns(frames) && s2 == Waits(frames)
      decreases Work(frames, now)
    {
      ghost var work := Work(frames, now);
      while p != null
        invariant Linked(t) && Visiting(frames, now, out, t) && p == Root(now)
        invariant s1 == Owns(frames) && s2 == Waits(frames)
        invariant Work(frames, now) <= work
        decreases Work(frames, now)
      {
        NowIsLinked(frames, now, out, t);
        Descend(frames, now, out, t);
        PushFrame(frames, InLeft(now));
        if p.right != null { s2 := s2 + [p.right]; }
        s1 := s1 + [p];
        p := p.left;
        frames, now := frames + [InLeft(now)], now.left;
      }
      if s1 == [] { break; }
      ghost var below, f := Split(frames);
      TopOfStack(below, f, out, t);
      PushFrame(below, f);
      p := s1[|s1| - 1];
      s1 := s1[..|s1| - 1];
      if p.right != null && p.right == Peek(s2) {
        TurnRight(below, f.t, out, t);
        PushFrame(below, InRight(f.t));
        s2 := s2[..|s2| - 1];
        s1 := s1 + [p];
        p := p.right;
        frames, now := below + [InRight(f.t)], f.t.right;
      } else {
        Visit(below, f, out, t);
        out := out + [p];
        p := null;
        frames, now := below, Leaf;
      }
    }
    VisitingEnds(frames, out, t);
  }
}
