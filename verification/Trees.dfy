/** Binary trees in the heap, and the recursive traversals that the loops must agree with. */
module Trees {
  import opened Lists

  class Node {
    const key: int
    var left: Node?
    var right: Node?

    constructor (key: int)
      ensures this.key == key && left == null && right == null
    {
      this.key := key;
      left, right := null, null;
    }
  }

  /** The shape of a tree, with the nodes it is made of. */
  datatype Tree = Leaf | Branch(left: Tree, node: Node, right: Tree)

  function Root(t: Tree): Node? {
    if t.Leaf? then null else t.node
  }

  ghost function Nodes(t: Tree): set<Node> {
    if t.Leaf? then {} else Nodes(t.left) + {t.node} + Nodes(t.right)
  }

  ghost function Size(t: Tree): nat {
    if t.Leaf? then 0 else Size(t.left) + 1 + Size(t.right)
  }

  /** No node occurs twice. */
  ghost predicate Distinct(t: Tree) {
    t.Branch? ==>
      && t.node !in Nodes(t.left) + Nodes(t.right)
      && Nodes(t.left) !! Nodes(t.right)
      && Distinct(t.left) && Distinct(t.right)
  }

  ghost function Subtrees(t: Tree): set<Tree> {
    {t} + if t.Leaf? then {} else Subtrees(t.left) + Subtrees(t.right)
  }

  /** The pointers of the heap make up the shape. */
  ghost predicate Linked(t: Tree)
    reads Nodes(t)
  {
    forall s | s in Subtrees(t) && s.Branch? ::
      s.node in Nodes(t) && s.node.left == Root(s.left) && s.node.right == Root(s.right)
  }

  lemma {:induction false} LinkedParts(t: Tree)
    requires Linked(t) && t.Branch?
    ensures t.node.left == Root(t.left) && t.node.right == Root(t.right)
    ensures Linked(t.left) && Linked(t.right)
  {
    assert t in Subtrees(t);
    SubtreeNodes(t.left);
    SubtreeNodes(t.right);
  }

  lemma {:induction false} SubtreeNodes(t: Tree)
    ensures forall s | s in Subtrees(t) :: Nodes(s) <= Nodes(t)
    ensures forall s | s in Subtrees(t) && s.Branch? :: s.node in Nodes(t)
  {
    if t.Branch? {
      SubtreeNodes(t.left);
      SubtreeNodes(t.right);
    }
  }

  lemma {:induction false} SubtreesAreTransitive(t: Tree, s: Tree)
    requires s in Subtrees(t)
    ensures Subtrees(s) <= Subtrees(t)
    ensures s.Branch? ==> s.left in Subtrees(t) && s.right in Subtrees(t)
    ensures Distinct(t) ==> Distinct(s)
  {
    if s != t {
      if s in Subtrees(t.left) {
        SubtreesAreTransitive(t.left, s);
      } else {
        SubtreesAreTransitive(t.right, s);
      }
    } else if s.Branch? {
      assert s.left in Subtrees(s.left) && s.right in Subtrees(s.right);
    }
  }

  /** What the heap says at a place inside a tree. */
  lemma LinkedAt(t: Tree, s: Tree)
    requires Linked(t) && s in Subtrees(t) && s.Branch?
    ensures s.node.left == Root(s.left) && s.node.right == Root(s.right)
    ensures s.left in Subtrees(t) && s.right in Subtrees(t)
  {
    SubtreesAreTransitive(t, s);
  }

  ghost predicate IsTree(p: Node?, t: Tree)
    reads Nodes(t)
  {
    p == Root(t) && Distinct(t) && Linked(t)
  }

  ghost function Preorder(t: Tree): seq<Node> {
    if t.Leaf? then [] else [t.node] + Preorder(t.left) + Preorder(t.right)
  }

  ghost function Inorder(t: Tree): seq<Node> {
    if t.Leaf? then [] else Inorder(t.left) + [t.node] + Inorder(t.right)
  }

  ghost function Postorder(t: Tree): seq<Node> {
    if t.Leaf? then [] else Postorder(t.left) + Postorder(t.right) + [t.node]
  }

  // ---------------------------------------------------------------- recursive traversals

  function RecursivePreorder(p: Node?, ghost t: Tree): (out: seq<Node>)
    requires IsTree(p, t)
    reads Nodes(t)
    ensures out == Preorder(t)
    decreases t
  {
    if p == null then [] else
    LinkedParts(t);
    [p] + RecursivePreorder(p.left, t.left) + RecursivePreorder(p.right, t.right)
  }

  function RecursiveInorder(p: Node?, ghost t: Tree): (out: seq<Node>)
    requires IsTree(p, t)
    reads Nodes(t)
    ensures out == Inorder(t)
    decreases t
  {
    if p == null then [] else
    LinkedParts(t);
    RecursiveInorder(p.left, t.left) + [p] + RecursiveInorder(p.right, t.right)
  }

  function RecursivePostorder(p: Node?, ghost t: Tree): (out: seq<Node>)
    requires IsTree(p, t)
    reads Nodes(t)
    ensures out == Postorder(t)
    decreases t
  {
    if p == null then [] else
    LinkedParts(t);
    RecursivePostorder(p.left, t.left) + RecursivePostorder(p.right, t.right) + [p]
  }

  // ---------------------------------------------------------------- pending subtrees

  /** What an inorder traversal has left to do when it is on the left sides of
    * these subtrees, the last one innermost: their roots and right sides. */
  ghost function InorderLeft(trees: seq<Tree>): seq<Node> {
    if trees == [] then [] else
    var top := trees[|trees| - 1];
    (if top.Branch? then [top.node] + Inorder(top.right) else []) + InorderLeft(trees[..|trees| - 1])
  }

  ghost function RightSize(t: Tree): nat {
    if t.Leaf? then 0 else Size(t.right)
  }

  ghost function RightWork(trees: seq<Tree>): nat {
    if trees == [] then 0 else 1 + 2 * RightSize(trees[|trees| - 1]) + RightWork(trees[..|trees| - 1])
  }

  ghost function WorkLeft(trees: seq<Tree>, now: Tree): nat {
    2 * Size(now) + RightWork(trees)
  }

  lemma PushInorder(trees: seq<Tree>, t: Tree)
    requires t.Branch?
    ensures InorderLeft(trees + [t]) == [t.node] + Inorder(t.right) + InorderLeft(trees)
    ensures RightWork(trees + [t]) == 1 + 2 * Size(t.right) + RightWork(trees)
  {
    assert (trees + [t])[..|trees|] == trees;
  }

  /** A subtree becomes pending, and its left side comes next. */
  lemma InorderDown(trees: seq<Tree>, now: Tree)
    requires now.Branch?
    ensures Inorder(now.left) + InorderLeft(trees + [now]) == Inorder(now) + InorderLeft(trees)
    ensures WorkLeft(trees + [now], now.left) < WorkLeft(trees, now)
  {
    PushInorder(trees, now);
    assert Inorder(now) == Inorder(now.left) + [now.node] + Inorder(now.right);
    hide InorderLeft, Inorder, RightWork;
    Regroup4<Node>(Inorder(now.left), [now.node], Inorder(now.right), InorderLeft(trees));
  }

  /** A pending root is visited, and its right side comes next. */
  lemma InorderUp(out: seq<Node>, below: seq<Tree>, top: Tree)
    requires top.Branch?
    ensures out + (Inorder(Leaf) + InorderLeft(below + [top]))
      == (out + [top.node]) + (Inorder(top.right) + InorderLeft(below))
    ensures WorkLeft(below, top.right) < WorkLeft(below + [top], Leaf)
  {
    PushInorder(below, top);
    var r, left := Inorder(top.right), InorderLeft(below);
    assert Inorder(Leaf) == [];
    hide Inorder, InorderLeft, RightWork;
    Trivial<Node>(([top.node] + r) + left);
    Regroup4<Node>(out, [top.node], r, left);
    Regroup<Node>(out + [top.node], r, left);
  }
}
