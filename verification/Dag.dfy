/** `dag_node` and `dag` of dag.h: the mutable graph, its edits, the search for cycles
    and the collection of a target's prerequisites. */
module Dag {
  import opened Colours
  import opened Lists
  import opened Digraph
  import opened DepthFirst
  import opened Collecting

  datatype Kind = Normal | Phony

  class DagNode {
    const key: string
    var kind: Kind
    var status: Colour
    var waitBlack: int
    var recipe: string
    var lmt: int
    var inList: set<DagNode>
    var outList: set<DagNode>

    /** Only the key, the recipe and the edges are initialised. */
    constructor (key: string)
      ensures this.key == key && recipe == "" && inList == {} && outList == {}
    {
      this.key := key;
      recipe, inList, outList := "", {}, {};
      kind, status, waitBlack, lmt := *, *, *, *;
    }
  }

  method HasGrey(s: set<DagNode>) returns (found: bool)
    ensures found <==> exists u | u in s :: u.status == Grey
  {
    var rest := s;
    while rest != {}
      invariant rest <= s && forall u | u in s - rest :: u.status != Grey
    {
      var u :| u in rest;
      if u.status == Grey { return true; }
      rest := rest - {u};
    }
    found := false;
  }

  /** `first_white_parent` and `first_white_child`. */
  method FirstWhite(s: set<DagNode>) returns (first: DagNode?)
    ensures first != null ==> first in s && first.status == White
    ensures first == null ==> forall u | u in s :: u.status != White
  {
    var rest := s;
    while rest != {}
      invariant rest <= s && forall u | u in s - rest :: u.status != White
    {
      var u :| u in rest;
      if u.status == White { return u; }
      rest := rest - {u};
    }
    first := null;
  }

  lemma InGraph<N>(g: map<N, set<N>>, base: set<N>, root: N, stack: seq<N>, order: seq<N>, p: N)
    requires Next(g, base, root, stack, order, p)
    ensures p in g && p !in Seen(stack, order)
  {}

  lemma ValuesAfterAdd(m: map<string, DagNode>, k: string, n: DagNode)
    requires k !in m
    ensures m[k := n].Values == m.Values + {n}
  {
    forall x | x in m.Values ensures x in m[k := n].Values {
      var j :| j in m && m[j] == x;
      assert m[k := n][j] == x;
    }
    assert m[k := n][k] == n;
  }

  lemma ValuesAfterRemove(m: map<string, DagNode>, k: string)
    requires k in m && forall j | j in m :: m[j].key == j
    ensures (m - {k}).Values == m.Values - {m[k]}
  {
    forall x | x in m.Values && x != m[k] ensures x in (m - {k}).Values {
      var j :| j in m && m[j] == x;
      assert (m - {k})[j] == x;
    }
  }

  class Dag {
    var nodeList: map<string, DagNode>
    var taskList: seq<DagNode>

    constructor ()
      ensures Valid() && nodeList == map[] && taskList == []
    {
      nodeList, taskList := map[], [];
    }

    ghost function Nodes(): set<DagNode>
      reads this`nodeList
    {
      nodeList.Values
    }

    /** Keys name nodes one to one, and the in and out sets are mutually inverse. */
    ghost predicate Valid()
      reads this`nodeList, Nodes()`inList, Nodes()`outList
    {
      && (forall k | k in nodeList :: nodeList[k].key == k)
      && (forall n | n in Nodes() :: n.inList <= Nodes() && n.outList <= Nodes())
      && (forall u, v | u in Nodes() && v in Nodes() :: v in u.outList <==> u in v.inList)
    }

    ghost function Children(): (g: map<DagNode, set<DagNode>>)
      reads this`nodeList, Nodes()`outList
    {
      map n | n in Nodes() :: n.outList
    }

    ghost function Parents(): (g: map<DagNode, set<DagNode>>)
      reads this`nodeList, Nodes()`inList
    {
      map n | n in Nodes() :: n.inList
    }

    ghost function Status(): (c: map<DagNode, Colour>)
      reads this`nodeList, Nodes()`status
    {
      map n | n in Nodes() :: n.status
    }

    ghost predicate Tracks(colour: map<DagNode, Colour>)
      reads this`nodeList, Nodes()`status
    {
      colour.Keys == Nodes() && forall n | n in Nodes() :: n.status == colour[n]
    }

    lemma TracksAt(colour: map<DagNode, Colour>, s: set<DagNode>)
      requires Tracks(colour) && s <= Nodes()
      ensures forall u | u in s :: u in colour && colour[u] == u.status
    {}

    lemma AsItStands()
      requires Valid()
      ensures Along(true, Parents()) && Along(false, Children()) && Tracks(Status())
    {}

    lemma StatusIs(colour: map<DagNode, Colour>)
      requires Tracks(colour)
      ensures Status() == colour
    {}

    lemma AlongAt(inwards: bool, g: map<DagNode, set<DagNode>>, n: DagNode)
      requires Along(inwards, g) && n in Nodes()
      ensures n in g && g[n] <= Nodes() && g[n] == (if inwards then n.inList else n.outList) && g.Keys == Nodes()
    {}

    method Paint(n: DagNode, c: Colour, ghost before: map<DagNode, Colour>)
      requires n in Nodes()
      modifies n`status
      ensures n.status == c
      ensures old(Tracks(before)) ==> Tracks(before[n := c])
    {
      n.status := c;
    }

    /** A finished search: `order` holds what the root reaches outside `base`, neighbours first,
        and those nodes have been turned BLACK. */
    ghost predicate Visited(g: map<DagNode, set<DagNode>>, base: set<DagNode>, root: DagNode, order: seq<DagNode>)
      reads this`nodeList, Nodes()`status
    {
      && PostOrder<DagNode>(g, base, order)
      && (forall x | x in g :: x in order <==> ReachesOutside<DagNode>(g, base, root, x))
      && (forall n | n in Nodes() :: n.status == if n in base || n in order then Black else White)
    }

    // ---------- edits ----------

    /** The node with the given key, allocated if needed. */
    method AddNode(key: string) returns (p: DagNode)
      requires Valid()
      modifies this`nodeList
      ensures Valid() && nodeList == old(nodeList)[key := p] && Nodes() == old(Nodes()) + {p}
      ensures if key in old(nodeList) then p == old(nodeList[key]) else fresh(p) && p.inList == p.outList == {}
    {
      var q := GetNode(key);
      if q != null { return q; }
      p := new DagNode(key);
      nodeList := nodeList[key := p];
      ValuesAfterAdd(old(nodeList), key, p);
    }

    /** Insert or erase `v` in `u`'s out set and `u` in `v`'s in set: that edge and no other. */
    method Link(u: DagNode, v: DagNode, insert: bool)
      requires Valid() && u in Nodes() && v in Nodes()
      modifies u`outList, v`inList
      ensures Valid()
      ensures forall m | m in Nodes() :: m in u.outList <==> if m == v then insert else m in old(u.outList)
    {
      u.outList := if insert then u.outList + {v} else u.outList - {v};
      v.inList := if insert then v.inList + {u} else v.inList - {u};
      assert forall n | n in Nodes() :: n.inList <= Nodes() && n.outList <= Nodes();
      forall a, b | a in Nodes() && b in Nodes() ensures b in a.outList <==> a in b.inList {
        assert b in old(a.outList) <==> a in old(b.inList);
      }
    }

    /** The two end nodes of a new edge, allocated if needed: no edge changes. */
    method AddEnds(from: string, to: string) returns (u: DagNode, v: DagNode)
      requires Valid()
      modifies this`nodeList
      ensures Valid() && nodeList == old(nodeList)[from := u][to := v] && nodeList[from] == u
      ensures Nodes() == old(Nodes()) + {u, v}
      ensures forall k | k in old(nodeList) :: nodeList[k] == old(nodeList[k])
      ensures forall n | n in Nodes() && n !in old(Nodes()) :: fresh(n) && n.outList == {}
    {
      u := AddNode(from);
      label One:
      v := AddNode(to);
      assert forall n | n in Nodes() && n !in old(Nodes()) :: n == u || n == v;
      hide Valid, Nodes;
    }

    /** The edge set gains exactly the new edge, whatever was there before; new nodes have no other edge. */
    method AddEdge(from: string, to: string)
      requires Valid()
      modifies this`nodeList, Nodes()`inList, Nodes()`outList
      ensures Valid() && nodeList.Keys == old(nodeList.Keys) + {from, to}
      ensures forall k | k in old(nodeList) :: nodeList[k] == old(nodeList[k])
      ensures forall n, m | n in Nodes() && m in Nodes() ::
                m in n.outList <==> (n in old(Nodes()) && m in old(n.outList)) || (n == nodeList[from] && m == nodeList[to])
    {
      hide Valid;
      var u, v := AddEnds(from, to);
      Link(u, v, true);
    }

    /** Does nothing when either node or the edge is absent. */
    method RemoveEdge(from: string, to: string)
      requires Valid()
      modifies Nodes()`inList, Nodes()`outList
      ensures Valid()
      ensures forall n, m | n in Nodes() && m in Nodes() ::
                m in n.outList <==> m in old(n.outList) && !(from in nodeList && to in nodeList && n == nodeList[from] && m == nodeList[to])
    {
      var u := GetNode(from);
      var v := GetNode(to);
      if u == null || v == null { return; }
      hide Valid;
      Link(u, v, false);
    }

    /** The node goes, with exactly the edges that touch it. */
    method RemoveNode(key: string)
      requires Valid()
      modifies this`nodeList, Nodes()`inList, Nodes()`outList
      ensures Valid() && nodeList == old(nodeList) - {key}
      ensures forall n, m | n in Nodes() && m in Nodes() :: m in n.outList <==> m in old(n.outList)
    {
      var p := GetNode(key);
      if p == null { return; }
      forall parent | parent in p.inList {
        parent.outList := parent.outList - {p};
      }
      forall child | child in p.outList {
        child.inList := child.inList - {p};
      }
      nodeList := nodeList - {key};
      ValuesAfterRemove(old(nodeList), key);
      assert forall n | n in Nodes() :: n.outList == old(n.outList) - {p} && n.inList == old(n.inList) - {p};
    }

    method GetNode(key: string) returns (p: DagNode?)
      ensures p == if key in nodeList then nodeList[key] else null
    {
      p := if key in nodeList then nodeList[key] else null;
    }

    // ---------- is_dag ----------

    method Bleach()
      modifies Nodes()`status
      ensures forall n | n in Nodes() :: n.status == White
    {
      forall n | n in nodeList.Values {
        n.status := White;
      }
    }

    /** The edge direction of a search: `_out_list` for `is_dag`, `_in_list` for `add_to_task_list`. */
    ghost predicate Along(inwards: bool, g: map<DagNode, set<DagNode>>)
      reads this`nodeList, Nodes()`inList, Nodes()`outList
    {
      g.Keys == Nodes() && forall n | n in Nodes() :: g[n] <= Nodes() && g[n] == if inwards then n.inList else n.outList
    }

    /** The inner loop of both searches: visit `p` and then first white neighbours until a
        node has none.  Stops early at a GREY neighbour. */
    method Descend(inwards: bool, ghost g: map<DagNode, set<DagNode>>, ghost base: set<DagNode>, ghost root: DagNode,
                   p: DagNode, stack: seq<DagNode>, ghost order: seq<DagNode>, ghost before: map<DagNode, Colour>)
      returns (loop: bool, s: seq<DagNode>, ghost colour: map<DagNode, Colour>)
      requires g.Keys == Nodes() && Along(inwards, g) && Tracks(before)
      requires Doing<DagNode>(g, base, root, before, stack, order)
      requires Next<DagNode>(g, base, root, stack, order, p) && p.status != Grey
      modifies Nodes()`status
      ensures loop ==> LoopOutside<DagNode>(g, base, root) && Interrupted<DagNode>(g, base, root, colour, order)
      ensures Along(inwards, g) && Tracks(colour)
      ensures !loop ==> Doing<DagNode>(g, base, root, colour, s, order) && s != []
      ensures !loop ==> Nodes() - Seen<DagNode>(s, order) < Nodes() - Seen<DagNode>(stack, order)
    {
      hide Doing, Next, Seen, LoopOutside, Interrupted, Tracks, Along, Nodes;
      var q: DagNode? := p;
      s, colour, loop := stack, before, false;
      InGraph<DagNode>(g, base, root, s, order, p);
      while q != null
        invariant g.Keys == Nodes() && Along(inwards, g) && Tracks(colour) && Doing<DagNode>(g, base, root, colour, s, order)
        invariant q != null ==> q.status != Grey && Next<DagNode>(g, base, root, s, order, q)
        invariant Seen<DagNode>(stack, order) <= Seen<DagNode>(s, order)
        invariant q == p || (s != [] && p in Seen<DagNode>(s, order))
        decreases Nodes() - Seen<DagNode>(s, order)
      {
        var u: DagNode := q;
        InGraph<DagNode>(g, base, root, s, order, u);
        var neighbours := if inwards then u.inList else u.outList;
        AlongAt(inwards, g, u);
        TracksAt(colour, {u});
        Paint(u, Grey, colour);
        TracksAt(colour[u := Grey], neighbours);
        var grey := HasGrey(neighbours);
        if grey {
          ghost var v: DagNode :| v in neighbours && v.status == Grey;
          DoBackEdge<DagNode>(g, base, root, colour, s, order, u, v);
          loop, colour := true, colour[u := Grey];
          return;
        }
        DoPush<DagNode>(g, base, root, colour, s, order, u);
        s, colour := s + [u], colour[u := Grey];
        q := FirstWhite(neighbours);
      }
    }

    /** The rest of a round: the top of the stack has a white neighbour left to visit, or it
        is popped and marked visited. */
    method Backtrack(inwards: bool, ghost g: map<DagNode, set<DagNode>>, ghost base: set<DagNode>, ghost root: DagNode,
                     stack: seq<DagNode>, done: seq<DagNode>, ghost before: map<DagNode, Colour>)
      returns (p: DagNode?, s: seq<DagNode>, order: seq<DagNode>, ghost colour: map<DagNode, Colour>)
      requires g.Keys == Nodes() && Along(inwards, g) && Tracks(before) && Doing<DagNode>(g, base, root, before, stack, done) && stack != []
      requires forall n | n in done :: n in Nodes()
      modifies Nodes()`status
      ensures Along(inwards, g) && Tracks(colour) && Doing<DagNode>(g, base, root, colour, s, order)
      ensures root in Seen<DagNode>(s, order) && Seen<DagNode>(s, order) == Seen<DagNode>(stack, done)
      ensures if p != null then s == stack && p.status != Grey && Next<DagNode>(g, base, root, s, order, p) else |s| < |stack|
      ensures forall n | n in order :: n in Nodes()
    {
      hide Doing, Next, Seen, Tracks, Along;
      DoTop<DagNode>(g, base, root, before, stack, done);
      var top := stack[|stack| - 1];
      var neighbours := if inwards then top.inList else top.outList;
      AlongAt(inwards, g, top);
      TracksAt(before, neighbours);
      s, order, colour := stack, done, before;
      p := FirstWhite(neighbours);
      if p == null {
        DoPop<DagNode>(g, base, root, before, stack, done);
        s, order, colour := stack[..|stack| - 1], done + [top], before[top := Black];
        Paint(top, Black, before);
      }
    }

    lemma SearchEnds(g: map<DagNode, set<DagNode>>, base: set<DagNode>, root: DagNode, colour: map<DagNode, Colour>,
                     order: seq<DagNode>)
      requires g.Keys == Nodes() && Tracks(colour) && Doing<DagNode>(g, base, root, colour, [], order)
      requires root in Seen<DagNode>([], order)
      ensures Visited(g, base, root, order) && !LoopOutside<DagNode>(g, base, root)
    {
      DoDone<DagNode>(g, base, root, colour, order);
    }

    /** The search that the source writes out twice, over `_out_list` in `_from_node_stack2` and
        over `_in_list` in `add_to_task_list`: it succeeds exactly when no cycle lies among the
        nodes that `root` reaches through unvisited nodes, and then visits exactly those. */
    method Search(inwards: bool, root: DagNode, ghost g: map<DagNode, set<DagNode>>, ghost before: map<DagNode, Colour>)
      returns (ok: bool, order: seq<DagNode>)
      requires root in Nodes() && Along(inwards, g) && Tracks(before)
      requires forall n | n in Nodes() :: n.status != Grey
      modifies Nodes()`status
      ensures ok <==> !LoopOutside<DagNode>(g, Blacks<DagNode>(before) - {root}, root)
      ensures ok ==> Visited(g, Blacks<DagNode>(before) - {root}, root, order)
      ensures !ok ==> Interrupted<DagNode>(g, Blacks<DagNode>(before) - {root}, root, Status(), order)
      ensures forall n | n in order :: n in Nodes()
    {
      ghost var colour: map<DagNode, Colour> := before;
      ghost var base: set<DagNode> := Blacks<DagNode>(before) - {root};
      TracksAt(before, Nodes());
      DoStart<DagNode>(g, root, colour);
      hide Doing, Next, Seen, LoopOutside, ReachesOutside, PostOrder, Blacks, WellFormed, Tracks, Along, Interrupted, Status;
      var p: DagNode?, s: seq<DagNode> := root, [];
      order := [];
      while true
        invariant g.Keys == Nodes() && Along(inwards, g) && Tracks(colour) && Doing<DagNode>(g, base, root, colour, s, order)
        invariant if p == null then root in Seen<DagNode>(s, order)
                  else p.status != Grey && Next<DagNode>(g, base, root, s, order, p)
        invariant forall n | n in order :: n in Nodes()
        decreases Nodes() - Seen<DagNode>(s, order), |s|, p == null
      {
        if p != null {
          var loop;
          loop, s, colour := Descend(inwards, g, base, root, p, s, order, colour);
          if loop {
            StatusIs(colour);
            return false, order;
          }
        }
        if s == [] { break; }
        p, s, order, colour := Backtrack(inwards, g, base, root, s, order, colour);
      }
      SearchEnds(g, base, root, colour, order);
      hide Visited;
      ok := true;
    }

    /** `_from_node_stack2`. */
    method FromNodeStack2(root: DagNode) returns (ok: bool, ghost order: seq<DagNode>)
      requires Valid() && root in Nodes() && forall n | n in Nodes() :: n.status != Grey
      modifies Nodes()`status
      ensures ok <==> !LoopOutside<DagNode>(old(Children()), old(Blacks<DagNode>(Status())) - {root}, root)
      ensures ok ==> Visited(old(Children()), old(Blacks<DagNode>(Status())) - {root}, root, order)
    {
      hide LoopOutside, Visited, Blacks;
      assert Along(false, Children());
      ok, order := Search(false, root, Children(), Status());
    }

    ghost function Whites(): set<DagNode>
      reads this`nodeList, Nodes()`status
    {
      set n | n in Nodes() && n.status == White
    }

    /** The recursion of `_from_node_recursive`.  It goes on after a cycle was met; `clean` says
        that none was met before the call. */
    method Recurse(u: DagNode, ghost clean: bool, ghost g: map<DagNode, set<DagNode>>, ghost base: set<DagNode>,
                   ghost root: DagNode, ghost before: map<DagNode, Colour>, ghost stack: seq<DagNode>, ghost done: seq<DagNode>)
      returns (ok: bool, ghost order: seq<DagNode>, ghost colour: map<DagNode, Colour>)
      requires u in Nodes() && Along(false, g)
      requires if clean then Tracks(before) && Exploring<DagNode>(g, base, root, before, stack, done)
                             && Next<DagNode>(g, base, root, stack, done, u)
               else LoopOutside<DagNode>(g, base, root)
      modifies Nodes()`status
      ensures Along(false, g) && Whites() <= old(Whites()) - {u}
      ensures if clean && ok then Tracks(colour) && Exploring<DagNode>(g, base, root, colour, stack, order) && u in order
                                  && (forall x | x in done :: x in order) && root in Seen<DagNode>(stack, order)
              else LoopOutside<DagNode>(g, base, root)
      decreases Whites() - {u}
    {
      hide Exploring, Next, Seen, LoopOutside, Tracks;
      ghost var s, c := stack + [u], clean;
      ok, order, colour := true, done, before[u := Grey];
      if c { Enter<DagNode>(g, base, root, before, stack, done, u); }
      Paint(u, Grey, before);
      var rest := u.outList;
      while rest != {}
        invariant rest <= u.outList && Along(false, g) && c == (clean && ok)
        invariant c ==> Tracks(colour) && Exploring<DagNode>(g, base, root, colour, s, order)
        invariant c ==> forall v | v in u.outList - rest :: v in base || v in order
        invariant c ==> forall x | x in done :: x in order
        invariant !c ==> LoopOutside<DagNode>(g, base, root)
        invariant Whites() <= old(Whites()) - {u}
      {
        var v :| v in rest;
        if c {
          TopColours<DagNode>(g, base, root, colour, s, order, v);
          TracksAt(colour, {v});
        }
        if v.status == White {
          var clear;
          clear, order, colour := Recurse(v, c, g, base, root, colour, s, order);
          ok := ok && clear;
        } else if v.status == Grey {
          if c { GreyEdge<DagNode>(g, base, root, colour, s, order, v); }
          ok := false;
        }
        c := clean && ok;
        rest := rest - {v};
      }
      if c { Exit<DagNode>(g, base, root, colour, s, order); }
      Paint(u, Black, colour);
      if c { order, colour := order + [u], colour[u := Black]; }
    }

    /** `_from_node_recursive`: the same verdict as the explicit stack, from any colouring without GREY nodes. */
    method FromNodeRecursive(u: DagNode) returns (ok: bool)
      requires Valid() && u in Nodes() && forall n | n in Nodes() :: n.status != Grey
      modifies Nodes()`status
      ensures ok <==> !LoopOutside<DagNode>(old(Children()), old(Blacks<DagNode>(Status())) - {u}, u)
    {
      ghost var g, before := Children(), Status();
      ghost var base: set<DagNode> := Blacks<DagNode>(before) - {u};
      assert Along(false, g) && Tracks(before);
      DoStart<DagNode>(g, u, before);
      hide LoopOutside, Searching, Painted, Blacks, Valid, Next, Tracks, NoBackEdge, Along;
      ghost var order: seq<DagNode>, colour: map<DagNode, Colour>;
      ok, order, colour := Recurse(u, true, g, base, u, before, [], []);
      if ok {
        SearchEnds(g, base, u, colour, order);
      }
    }

    // ---------- source_of and is_dag ----------

    /** An ancestor reached over first parents: a node without parents, or the node itself when
        the walk runs into a cycle among its ancestors. */
    method SourceOf(u: DagNode) returns (source: DagNode)
      requires Valid() && u in Nodes()
      ensures source in Nodes() && Reaches<DagNode>(Children(), source, u)
      ensures source.inList == {} || (source == u && LoopAbove<DagNode>(Children(), u) && !Acyclic<DagNode>(Children()))
    {
      hide Acyclic, Reaches, LoopAbove, Valid, Children;
      ReachesAlone(u);
      var seen := {u};
      source := u;
      while source.inList != {}
        invariant source in Nodes() && seen <= Nodes() && u in seen
        invariant Reaches<DagNode>(Children(), source, u)
        invariant forall s | s in seen :: Reaches<DagNode>(Children(), source, s)
        decreases Nodes() - seen, source in seen
      {
        var tmp: DagNode :| tmp in source.inList;
        ParentsAreNodes(source);
        if tmp in seen {
          ParentEdge(tmp, source);
          EdgeClosesLoop<DagNode>(Children(), source, tmp, u);
          LoopAboveIsCycle<DagNode>(Children(), u);
          return u;
        }
        ReachesFrom(tmp, source, u);
        ReachesAlone(tmp);
        ReachesAlone(source);
        ReachesFrom(tmp, source, source);
        forall s | s in seen ensures Reaches<DagNode>(Children(), tmp, s) {
          ReachesFrom(tmp, source, s);
        }
        seen := seen + {source};
        source := tmp;
      }
    }

    lemma ReachesAlone(u: DagNode)
      requires u in Nodes()
      ensures Reaches<DagNode>(Children(), u, u)
    {
      assert IsWalk<DagNode>(Children(), [u]);
    }

    lemma ParentsAreNodes(n: DagNode)
      requires Valid() && n in Nodes()
      ensures n.inList <= Nodes()
    {}

    lemma ParentEdge(a: DagNode, b: DagNode)
      requires Valid() && a in Nodes() && b in Nodes() && a in b.inList
      ensures a in Children() && b in Children()[a]
    {}

    lemma ReachesFrom(a: DagNode, b: DagNode, c: DagNode)
      requires Valid() && a in Nodes() && b in Nodes() && a in b.inList && Reaches<DagNode>(Children(), b, c)
      ensures Reaches<DagNode>(Children(), a, c)
    {
      ReachesBack<DagNode>(Children(), a, b, c);
    }

    /** Every visited node is BLACK and comes after its children. */
    ghost predicate Walked(visited: seq<DagNode>)
      reads this`nodeList, Nodes()`status, Nodes()`outList
    {
      && PostOrder<DagNode>(Children(), {}, visited)
      && forall n | n in Nodes() :: n.status == if n in visited then Black else White
    }

    /** One round of `is_dag`: search from the source above an unvisited node. */
    method VisitFromSource(u: DagNode, ghost visited: seq<DagNode>) returns (ok: bool, ghost order: seq<DagNode>)
      requires Valid() && u in Nodes() && Walked(visited) && u !in visited
      modifies Nodes()`status
      ensures ok ==> Walked(visited + order) && u in visited + order
      ensures !ok ==> !Acyclic<DagNode>(old(Children()))
    {
      hide LoopOutside, PostOrder, ReachesOutside, Acyclic, Reaches, Blacks, Valid, Visited, Walked;
      ghost var g: map<DagNode, set<DagNode>> := Children();
      var p := SourceOf(u);
      Unvisited(visited, p, u);
      NoneGrey(visited);
      ok, order := FromNodeStack2(p);
      if ok {
        ContinueWalk(visited, p, u, order);
      } else {
        LoopIsCycle<DagNode>(g, Elems<DagNode>(visited), p);
      }
    }

    /** Every visited node is BLACK and comes after its children, and only `rest` may be unvisited. */
    ghost predicate WalkedBut(visited: seq<DagNode>, rest: set<DagNode>)
      reads this`nodeList, Nodes()`status, Nodes()`outList
    {
      Walked(visited) && rest <= Nodes() && forall n | n in Nodes() && n !in rest :: n in visited
    }

    /** One round of `is_dag`, for any node that is left. */
    method VisitNext(u: DagNode, ghost visited: seq<DagNode>, ghost rest: set<DagNode>) returns (ok: bool, ghost more: seq<DagNode>)
      requires Valid() && u in rest && WalkedBut(visited, rest)
      modifies Nodes()`status
      ensures ok ==> WalkedBut(more, rest - {u})
      ensures !ok ==> !Acyclic<DagNode>(old(Children()))
    {
      hide Acyclic, Children, PostOrder, Valid, Walked;
      WalkedStatus(visited, u);
      ok, more := true, visited;
      if u.status == White {
        ghost var order: seq<DagNode>;
        ok, order := VisitFromSource(u, visited);
        more := visited + order;
      }
    }

    lemma ContinueWalk(visited: seq<DagNode>, p: DagNode, u: DagNode, order: seq<DagNode>)
      requires PostOrder<DagNode>(Children(), {}, visited) && p in Nodes() && p !in visited && u in Nodes()
      requires Visited(Children(), Elems<DagNode>(visited), p, order) && Reaches<DagNode>(Children(), p, u)
      ensures Walked(visited + order) && u in visited + order
    {
      NewTarget<DagNode>(Children(), visited, p, order);
      hide PostOrder, ReachesOutside, Reaches;
    }

    lemma WalkedStatus(visited: seq<DagNode>, n: DagNode)
      requires Walked(visited) && n in Nodes()
      ensures n.status == White <==> n !in visited
    {}

    lemma NoneGrey(visited: seq<DagNode>)
      requires Walked(visited)
      ensures forall n | n in Nodes() :: n.status != Grey
    {}

    lemma AllWalked(visited: seq<DagNode>)
      requires Walked(visited) && forall n | n in Nodes() :: n in visited
      ensures Acyclic<DagNode>(Children())
    {
      assert Elems<DagNode>(visited) == Children().Keys;
      PostOrderOfAllIsAcyclic<DagNode>(Children(), visited);
    }

    lemma NothingWalked()
      requires forall n | n in Nodes() :: n.status == White
      ensures WalkedBut([], nodeList.Values)
    {
      assert PostOrder<DagNode>(Children(), {}, []);
    }

    lemma EverythingWalked(visited: seq<DagNode>)
      requires WalkedBut(visited, {})
      ensures Acyclic<DagNode>(Children())
    {
      hide Walked, Acyclic, Children;
      AllWalked(visited);
    }

    /** `is_dag` is true exactly when the graph has no cycle. */
    method IsDag() returns (dag: bool)
      requires Valid()
      modifies Nodes()`status
      ensures dag <==> Acyclic<DagNode>(old(Children()))
    {
      hide Acyclic, Children, PostOrder, Valid, Walked, WalkedBut;
      Bleach();
      NothingWalked();
      ghost var visited: seq<DagNode> := [];
      var rest := nodeList.Values;
      hide Nodes;
      while rest != {}
        invariant WalkedBut(visited, rest)
        decreases |rest|
      {
        var u :| u in rest;
        var ok;
        ok, visited := VisitNext(u, visited, rest);
        if !ok { return false; }
        rest := rest - {u};
      }
      EverythingWalked(visited);
      dag := true;
    }

    lemma Unvisited(visited: seq<DagNode>, p: DagNode, u: DagNode)
      requires Walked(visited) && p in Nodes() && Reaches<DagNode>(Children(), p, u) && u !in visited
      ensures p !in visited && Blacks<DagNode>(Status()) - {p} == Elems<DagNode>(visited)
      ensures PostOrder<DagNode>(Children(), {}, visited)
    {
      PostOrderIsClosed<DagNode>(Children(), visited);
      var w: seq<DagNode> :| IsWalk<DagNode>(Children(), w) && w[0] == p && w[|w| - 1] == u;
      if p in visited { ClosedKeepsWalks<DagNode>(Children(), Elems<DagNode>(visited), w); }
    }

    // ---------- add_to_task_list ----------

    /** The task list holds each collected node once, after its prerequisites; the collected
        nodes are BLACK and all others WHITE.  So it is after `bleach` on an empty list. */
    ghost predicate Collected()
      reads this, Nodes()`status, Nodes()`inList
    {
      && PostOrder<DagNode>(Parents(), {}, taskList)
      && forall n | n in Nodes() :: n.status == if n in taskList then Black else White
    }

    method ClearTaskList()
      modifies this`taskList
      ensures taskList == []
    {
      taskList := [];
    }

    /** Fails exactly when the key is absent or a cycle lies among the ancestors of the target
        that were not visited before; otherwise appends those ancestors, parents first. */
    method AddToTaskList(key: string) returns (ok: bool, ghost order: seq<DagNode>)
      requires Valid() && forall n | n in Nodes() :: n.status != Grey
      modifies this`taskList, Nodes()`status
      ensures key !in nodeList ==> !ok && taskList == old(taskList) && Status() == old(Status())
      ensures key in nodeList ==>
                (ok <==> !LoopOutside<DagNode>(old(Parents()), old(Blacks<DagNode>(Status())) - {nodeList[key]}, nodeList[key]))
      ensures taskList == old(taskList) + order
      ensures ok ==> Visited(old(Parents()), old(Blacks<DagNode>(Status())) - {nodeList[key]}, nodeList[key], order)
      ensures !ok && key in nodeList ==>
                Interrupted<DagNode>(old(Parents()), old(Blacks<DagNode>(Status())) - {nodeList[key]}, nodeList[key], Status(), order)
      ensures ok && old(Collected()) && old(nodeList[key].status) == White ==>
                Collected() && forall x | x in Nodes() ::
                  x in taskList <==> x in old(taskList) || Reaches<DagNode>(Parents(), nodeList[key], x)
      ensures old(Collected()) && key in nodeList && old(nodeList[key].status) == Black ==>
                ok && taskList == old(taskList) + [nodeList[key]]
    {
      order := [];
      var p := GetNode(key);
      hide LoopOutside, Visited, Blacks, Reaches, Collected, Status, Parents, Interrupted;
      if p == null { return false, []; }
      ok, order := AddTarget(p);
    }

    method AddTarget(p: DagNode) returns (ok: bool, ghost order: seq<DagNode>)
      requires Valid() && p in Nodes() && forall n | n in Nodes() :: n.status != Grey
      modifies this`taskList, Nodes()`status
      ensures ok <==> !LoopOutside<DagNode>(old(Parents()), old(Blacks<DagNode>(Status())) - {p}, p)
      ensures taskList == old(taskList) + order
      ensures ok ==> Visited(old(Parents()), old(Blacks<DagNode>(Status())) - {p}, p, order)
      ensures !ok ==> Interrupted<DagNode>(old(Parents()), old(Blacks<DagNode>(Status())) - {p}, p, Status(), order)
      ensures ok && old(Collected()) && old(p.status) == White ==>
                Collected() && forall x | x in Nodes() ::
                  x in taskList <==> x in old(taskList) || Reaches<DagNode>(Parents(), p, x)
      ensures old(Collected()) && old(p.status) == Black ==> ok && taskList == old(taskList) + [p]
    {
      if Collected() { CollectedBlacks(p); }
      hide LoopOutside, Visited, Blacks, Valid, Reaches, Collected, PostOrder, ReachesOutside, Status, Interrupted;
      ghost var list := taskList;
      ok, order := Collect(p);
      if ok && old(Collected()) { CollectedGrows(list, p, order); }
    }

    method Collect(p: DagNode) returns (ok: bool, order: seq<DagNode>)
      requires Valid() && p in Nodes() && forall n | n in Nodes() :: n.status != Grey
      modifies this`taskList, Nodes()`status
      ensures ok <==> !LoopOutside<DagNode>(old(Parents()), old(Blacks<DagNode>(Status())) - {p}, p)
      ensures ok ==> Visited(old(Parents()), old(Blacks<DagNode>(Status())) - {p}, p, order)
      ensures !ok ==> Interrupted<DagNode>(old(Parents()), old(Blacks<DagNode>(Status())) - {p}, p, Status(), order)
      ensures taskList == old(taskList) + order && Parents() == old(Parents())
    {
      hide LoopOutside, Visited, Blacks, Valid, Along, Status, Tracks, Interrupted;
      AsItStands();
      ok, order := Search(true, p, Parents(), Status());
      taskList := taskList + order;
    }

    lemma CollectedBlacks(p: DagNode)
      requires Valid() && Collected() && p in Nodes()
      ensures Blacks<DagNode>(Status()) - {p} == Elems<DagNode>(taskList) - {p} && PostOrder<DagNode>(Parents(), {}, taskList)
      ensures p.status == if p in taskList then Black else White
      ensures p in taskList ==> !LoopOutside<DagNode>(Parents(), Elems<DagNode>(taskList) - {p}, p)
    {
      hide LoopOutside, ReachesOutside;
      if p in taskList { OldTarget<DagNode>(Parents(), taskList, p); }
      assert forall n | n in taskList :: n in Parents();
    }

    lemma CollectedGrows(list: seq<DagNode>, p: DagNode, order: seq<DagNode>)
      requires PostOrder<DagNode>(Parents(), {}, list) && p in Nodes() && taskList == list + order
      requires Visited(Parents(), Elems<DagNode>(list) - {p}, p, order)
      ensures p !in list ==> Collected() && forall x | x in Nodes() ::
                x in taskList <==> x in list || Reaches<DagNode>(Parents(), p, x)
      ensures p in list ==> order == [p]
    {
      hide LoopOutside, Reaches, ReachesOutside;
      if p in list {
        OldTarget<DagNode>(Parents(), list, p);
        assert forall x | x in order :: x in Parents();
        OnlyElement<DagNode>(order, p);
      } else {
        assert Elems<DagNode>(list) - {p} == Elems<DagNode>(list);
        NewTarget<DagNode>(Parents(), list, p, order);
        hide PostOrder;
      }
    }
  }
}
