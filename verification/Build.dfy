/** From a collected graph to the plan that the scheduling stage runs. */
module Build {
  import opened Colours
  import opened Lists
  import opened DepthFirst
  import opened Dag
  import opened Outdated
  import opened Sieve
  import opened Preprocess
  import Scheduling

  ghost function Keys(s: set<DagNode>): set<string> {
    set n | n in s :: n.key
  }

  ghost function KeyList(s: seq<DagNode>): seq<string> {
    seq(|s|, i requires 0 <= i < |s| => s[i].key)
  }

  /** The graph as the scheduling stage sees it, nodes named by their keys. */
  ghost function PlanOf(g: Dag, order: seq<DagNode>): Scheduling.Plan
    reads g, g.Nodes()
  {
    Scheduling.Plan(map k | k in g.nodeList :: Keys(g.nodeList[k].outList),
                    map k | k in g.nodeList :: g.nodeList[k].status,
                    map k | k in g.nodeList :: g.nodeList[k].waitBlack,
                    KeyList(order), KeyList(g.taskList),
                    set k | k in g.nodeList && g.nodeList[k].recipe != "")
  }

  ghost predicate Named(nodes: set<DagNode>) {
    forall m, n | m in nodes && n in nodes && m.key == n.key :: m == n
  }

  lemma {:induction false} CardOfKeys(s: set<DagNode>)
    requires Named(s)
    ensures |Keys(s)| == |s|
  {
    if s != {} {
      var n :| n in s;
      CardOfKeys(s - {n});
      assert Keys(s) == Keys(s - {n}) + {n.key};
    }
  }

  lemma KeyListFacts(s: seq<DagNode>, nodes: set<DagNode>)
    requires Named(nodes) && forall n | n in s :: n in nodes
    ensures forall n | n in nodes :: n.key in KeyList(s) <==> n in s
    ensures NoDup(s) ==> NoDup(KeyList(s))
    ensures forall k | k in KeyList(s) :: exists n :: n in s && n.key == k
    ensures forall i | 0 <= i <= |s| :: KeyList(s[..i]) == KeyList(s)[..i]
  {
    forall n | n in nodes ensures n.key in KeyList(s) <==> n in s {
      if n in s {
        var i :| 0 <= i < |s| && s[i] == n;
        assert KeyList(s)[i] == n.key;
      }
      if n.key in KeyList(s) {
        var i :| 0 <= i < |s| && KeyList(s)[i] == n.key;
        assert s[i] in nodes;
      }
    }
    forall k | k in KeyList(s) ensures exists n :: n in s && n.key == k {
      var i :| 0 <= i < |s| && KeyList(s)[i] == k;
      assert s[i] in s && s[i].key == k;
    }
    if NoDup(s) {
      forall i, j | 0 <= i < j < |s| ensures KeyList(s)[i] != KeyList(s)[j] {
        assert s[i] in nodes && s[j] in nodes;
      }
    }
  }

  lemma NodesAreNamed(g: Dag)
    requires g.Valid()
    ensures Named(g.Nodes())
    ensures forall n | n in g.Nodes() :: n.key in g.nodeList && g.nodeList[n.key] == n && n.inList <= g.Nodes() && n.outList <= g.Nodes()
    ensures forall k | k in g.nodeList :: g.nodeList[k].key == k && g.nodeList[k] in g.Nodes()
  {}

  lemma InKeys(g: Dag, order: seq<DagNode>, n: DagNode)
    requires g.Valid() && n in g.Nodes()
    ensures Scheduling.In(PlanOf(g, order), n.key) == Keys(n.inList)
  {
    NodesAreNamed(g);
    var p := PlanOf(g, order);
    forall k | k in Scheduling.In(p, n.key) ensures k in Keys(n.inList) {
      assert n.key in Keys(g.nodeList[k].outList);
      var c :| c in g.nodeList[k].outList && c.key == n.key;
      assert c == n;
      assert g.nodeList[k] in n.inList && g.nodeList[k].key == k;
    }
    forall m | m in n.inList ensures m.key in Scheduling.In(p, n.key) {
      assert n in m.outList;
      assert n.key in Keys(m.outList);
    }
  }

  lemma StaleKeys(g: Dag, order: seq<DagNode>, n: DagNode)
    requires g.Valid() && n in g.Nodes() && forall t | t in g.taskList :: t in g.Nodes()
    ensures Scheduling.Stale(PlanOf(g, order), n.key) == Keys(n.inList * Elems(g.taskList))
    ensures |Scheduling.Stale(PlanOf(g, order), n.key)| == |n.inList * Elems(g.taskList)|
  {
    var p := PlanOf(g, order);
    InKeys(g, order, n);
    NodesAreNamed(g);
    KeyListFacts(g.taskList, g.Nodes());
    hide Dag.Valid;
    assert Scheduling.Stale(p, n.key) == set k | k in Scheduling.In(p, n.key) && k in p.list;
    hide Scheduling.In;
    forall k | k in Scheduling.Stale(p, n.key) ensures k in Keys(n.inList * Elems(g.taskList)) {
      var m :| m in n.inList && m.key == k;
      assert m in g.Nodes() && m.key in KeyList(g.taskList);
      assert m in n.inList * Elems(g.taskList);
    }
    forall m | m in n.inList * Elems(g.taskList) ensures m.key in Scheduling.Stale(p, n.key) {
      assert m.key in Keys(n.inList);
    }
    CardOfKeys(n.inList * Elems(g.taskList));
  }

  ghost predicate GreyThenBlack(list: seq<DagNode>)
    reads Elems(list)`status
  {
    forall i, j | 0 <= i < j < |list| && list[i].status == Black :: list[j].status == Black
  }

  /** BLACK nodes stand in their original order. */
  ghost predicate BlacksStay(order: seq<DagNode>, list: seq<DagNode>)
    reads Elems(list)`status
  {
    forall i, j | 0 <= i < j < |list| && list[i].status == Black == list[j].status :: Before<DagNode>(order, list[i], list[j])
  }

  /** A collected node is BLACK when it has outdated parents, and counts them. */
  ghost predicate Waits(n: DagNode, outdated: set<DagNode>)
    reads n`status, n`waitBlack, n`inList
  {
    && (n.status == Black <==> n.inList * outdated != {})
    && (n.inList != {} || n.status != White ==> n.waitBlack == |n.inList * outdated|)
  }

  /** What collection and preprocessing leave behind, in terms of nodes. */
  ghost predicate Handed(g: Dag, order: seq<DagNode>)
    reads g, g.Nodes(), Elems(order), Elems(g.taskList)
  {
    && g.Valid() && PostOrder<DagNode>(g.Parents(), {}, order)
    && NoDup(g.taskList) && (forall t | t in g.taskList :: t in order) && GreyThenBlack(g.taskList)
    && BlacksStay(order, g.taskList)
    && (forall n | n in g.Nodes() :: n in g.taskList <==> n.status != White)
    && (forall n | n in order :: Waits(n, Elems(g.taskList)))
  }

  lemma PlanDomains(g: Dag, order: seq<DagNode>)
    requires Handed(g, order)
    ensures Scheduling.Domains(PlanOf(g, order))
  {
    NodesAreNamed(g);
    hide Dag.Valid;
    assert forall n | n in order :: n in g.Parents();
    KeyListFacts(order, g.Nodes());
    KeyListFacts(g.taskList, g.Nodes());
    var p := PlanOf(g, order);
    forall u, k | u in p.out && k in p.out[u] ensures k in p.out {
      var c :| c in g.nodeList[u].outList && c.key == k;
      assert g.nodeList[u] in g.Nodes() && c in g.Nodes();
    }
    forall u | u in p.order ensures u in p.out {
      var n :| n in order && n.key == u;
    }
    forall u | u in p.list ensures u in p.order {
      var n :| n in g.taskList && n.key == u;
      assert n in g.Nodes() && n in order;
    }
  }

  lemma PlanTopological(g: Dag, order: seq<DagNode>)
    requires Handed(g, order)
    ensures Scheduling.Topological(PlanOf(g, order))
  {
    var p := PlanOf(g, order);
    assert forall n | n in order :: n in g.Parents();
    NodesAreNamed(g);
    KeyListFacts(order, g.Nodes());
    forall i, v | 0 <= i < |p.order| && v in Scheduling.In(p, p.order[i]) ensures v in p.order[..i] {
      var n := order[i];
      assert n in order;
      InKeys(g, order, n);
      var m :| m in n.inList && m.key == v;
      assert g.Parents()[n] <= {} + Elems(order[..i]);
      assert m in order[..i];
      KeyListFacts(order[..i], g.Nodes());
      assert m.key in KeyList(order[..i]);
    }
  }

  lemma PlanGreysFirst(g: Dag, order: seq<DagNode>)
    requires g.Valid() && GreyThenBlack(g.taskList) && NoDup(g.taskList) && forall t | t in g.taskList :: t in g.Nodes()
    ensures NoDup(PlanOf(g, order).list) && GreysFirst(PlanOf(g, order).colour, PlanOf(g, order).list)
  {
    var p := PlanOf(g, order);
    NodesAreNamed(g);
    hide Dag.Valid;
    KeyListFacts(g.taskList, g.Nodes());
    forall i | 0 <= i < |p.list| ensures p.list[i] in p.colour && p.colour[p.list[i]] == g.taskList[i].status {
      assert g.taskList[i] in g.taskList && g.taskList[i] in g.Nodes();
    }
  }

  lemma PlanWaits(g: Dag, order: seq<DagNode>, n: DagNode)
    requires Handed(g, order) && n in order
    ensures var p, u := PlanOf(g, order), n.key;
            && u in p.colour && u in p.wait
            && (p.colour[u] == Black <==> Scheduling.Stale(p, u) != {})
            && (Scheduling.Counts(p, u) ==> p.wait[u] == |Scheduling.Stale(p, u)|)
  {
    assert n in g.Parents();
    NodesAreNamed(g);
    StaleKeysIn(g, order, n);
    InKeys(g, order, n);
    PlanListed(g, order, n.key);
    assert Waits(n, Elems(g.taskList));
    hide Dag.Valid, PostOrder, GreyThenBlack, NoDup, BlacksStay, Scheduling.Stale, Scheduling.In;
    assert (|Scheduling.Stale(PlanOf(g, order), n.key)| == 0) == (n.inList * Elems(g.taskList) == {});
    assert n.inList == {} ==> Keys(n.inList) == {};
  }

  lemma PlanListed(g: Dag, order: seq<DagNode>, u: string)
    requires Handed(g, order) && u in g.nodeList
    ensures u in PlanOf(g, order).list <==> g.nodeList[u].status != White
  {
    NodesAreNamed(g);
    hide PostOrder, GreyThenBlack, NoDup;
    assert forall t | t in g.taskList :: t in g.Nodes() by {
      assert forall n | n in order :: n in g.Parents() by { OrderInParents(g, order); }
    }
    KeyListFacts(g.taskList, g.Nodes());
  }

  lemma OrderInParents(g: Dag, order: seq<DagNode>)
    requires PostOrder<DagNode>(g.Parents(), {}, order)
    ensures forall n | n in order :: n in g.Nodes()
  {
    assert forall n | n in order :: n in g.Parents();
  }

  lemma PlanColoured(g: Dag, order: seq<DagNode>)
    requires Handed(g, order) && Scheduling.Domains(PlanOf(g, order))
    ensures Scheduling.Coloured(PlanOf(g, order))
  {
    var p := PlanOf(g, order);
    OrderInParents(g, order);
    PlanGreysFirst(g, order);
    KeyListFacts(order, g.Nodes()) by { NodesAreNamed(g); }
    hide Dag.Valid, PostOrder, GreyThenBlack, GreysFirst, NoDup, KeyList, Keys, Handed, Scheduling.Stale, Scheduling.Domains;
    forall u | u in p.out ensures u in p.list <==> p.colour[u] != White { PlanListed(g, order, u); }
    forall u | u in p.order
      ensures u in p.colour && u in p.wait
      ensures p.colour[u] == Black <==> Scheduling.Stale(p, u) != {}
      ensures Scheduling.Counts(p, u) ==> p.wait[u] == |Scheduling.Stale(p, u)|
    {
      var n :| n in order && n.key == u;
      PlanWaits(g, order, n);
    }
    forall u | u in p.list ensures u in p.order { ListInOrder(g, order, u); }
  }

  lemma BeforeKeys(order: seq<DagNode>, m: DagNode, n: DagNode)
    requires Before<DagNode>(order, m, n)
    ensures Before(KeyList(order), m.key, n.key)
  {
    var a, b :| 0 <= a < b < |order| && order[a] == m && order[b] == n;
    assert KeyList(order)[a] == m.key && KeyList(order)[b] == n.key;
  }

  lemma ColourAt(g: Dag, order: seq<DagNode>, i: nat)
    requires Handed(g, order) && i < |g.taskList|
    ensures var p, n := PlanOf(g, order), g.taskList[i];
            && i < |p.list| && p.list[i] == n.key && n.key in p.colour && p.colour[n.key] == n.status
  {
    assert g.taskList[i] in g.taskList;
    OrderInParents(g, order);
    NodesAreNamed(g);
    hide Dag.Valid, PostOrder, GreyThenBlack, NoDup, BlacksStay;
  }

  lemma PlanBlacksInOrder(g: Dag, order: seq<DagNode>)
    requires Handed(g, order) && Scheduling.Domains(PlanOf(g, order))
    ensures Scheduling.BlacksInOrder(PlanOf(g, order))
  {
    var p := PlanOf(g, order);
    assert BlacksStay(order, g.taskList);
    forall i: nat | i < |p.list|
      ensures p.list[i] == g.taskList[i].key && p.list[i] in p.colour && p.colour[p.list[i]] == g.taskList[i].status
    {
      ColourAt(g, order, i);
    }
    hide Handed, Scheduling.Domains;
    forall i, j | 0 <= i < j < |p.list| && p.colour[p.list[i]] == Black == p.colour[p.list[j]]
      ensures Before(p.order, p.list[i], p.list[j])
    {
      BeforeKeys(order, g.taskList[i], g.taskList[j]);
    }
  }

  lemma ListInOrder(g: Dag, order: seq<DagNode>, u: string)
    requires Scheduling.Domains(PlanOf(g, order)) && u in PlanOf(g, order).list
    ensures u in PlanOf(g, order).order
  {}

  lemma StaleKeysIn(g: Dag, order: seq<DagNode>, n: DagNode)
    requires Handed(g, order) && n in g.Nodes()
    ensures |Scheduling.Stale(PlanOf(g, order), n.key)| == |n.inList * Elems(g.taskList)|
  {
    assert forall t | t in g.taskList :: t in g.Parents();
    StaleKeys(g, order, n);
  }

  /** The plan loses and adds nothing: under their keys it has the graph's nodes, edges, colours and
      counters, which nodes have a recipe, and both lists. */
  lemma PlanMirrors(g: Dag, order: seq<DagNode>)
    requires g.Valid()
    ensures var p := PlanOf(g, order);
            && p.out.Keys == g.nodeList.Keys && |p.order| == |order| && |p.list| == |g.taskList|
            && (forall n | n in g.Nodes() :: n.key in p.out && n.key in p.colour && n.key in p.wait)
            && (forall m, n | m in g.Nodes() && n in g.Nodes() :: n.key in p.out[m.key] <==> n in m.outList)
            && (forall n | n in g.Nodes() :: p.colour[n.key] == n.status && p.wait[n.key] == n.waitBlack)
            && (forall n | n in g.Nodes() :: n.key in p.recipes <==> n.recipe != "")
            && (forall i | 0 <= i < |order| :: p.order[i] == order[i].key)
            && (forall i | 0 <= i < |g.taskList| :: p.list[i] == g.taskList[i].key)
  {
    NodesAreNamed(g);
    hide Dag.Valid;
    var p := PlanOf(g, order);
    forall m, n | m in g.Nodes() && n in g.Nodes() ensures n.key in p.out[m.key] <==> n in m.outList {
      if n.key in Keys(m.outList) {
        var c :| c in m.outList && c.key == n.key;
        assert g.nodeList[c.key] == c;
      }
    }
  }

  /** The plan is prepared: the whole of the scheduling stage's theory applies to it. */
  lemma PlanIsPrepared(g: Dag, order: seq<DagNode>)
    requires Handed(g, order)
    ensures Scheduling.Prepared(PlanOf(g, order))
  {
    PlanDomains(g, order);
    PlanTopological(g, order);
    PlanColoured(g, order);
    PlanBlacksInOrder(g, order);
  }

  lemma SamePostOrder<N>(g: map<N, set<N>>, h: map<N, set<N>>, order: seq<N>)
    requires PostOrder(g, {}, order) && forall n | n in order :: n in h && (n in g ==> h[n] == g[n])
    ensures PostOrder(h, {}, order)
  {}

  lemma CollectedPostOrder(g: Dag)
    requires g.Valid() && g.Collected()
    ensures PostOrder<DagNode>(g.Parents(), {}, g.taskList) && PostOrder<DagNode>(InsOf(g.taskList), {}, g.taskList)
    ensures Elems(g.taskList) <= g.Nodes() && forall n | n in g.Nodes() && n !in g.taskList :: n.status == White
  {
    OrderInParents(g, g.taskList);
    SamePostOrder<DagNode>(g.Parents(), InsOf(g.taskList), g.taskList);
  }

  /** After preprocessing the outdated set is exactly the task list, and every node waits for its outdated parents. */
  lemma SettledNodesWait(list: seq<DagNode>, tasks: seq<DagNode>, ins: map<DagNode, set<DagNode>>, facts: map<DagNode, Facts>)
    requires ins == InsOf(list) && Known<DagNode>(ins, facts, list) && PostOrder<DagNode>(ins, {}, list)
    requires AllSettled(ins, facts, Stale<DagNode>(ins, facts, list), list)
    requires tasks == Sifted<DagNode>(list, Tints(list))
    ensures NoDup(tasks) && GreyThenBlack(tasks) && BlacksStay(list, tasks)
    ensures forall n :: n in tasks <==> n in list && n.status != White
    ensures Elems(tasks) == Stale<DagNode>(ins, facts, list)
    ensures forall n | n in list :: Waits(n, Elems(tasks))
  {
    var stale := Stale<DagNode>(ins, facts, list);
    SiftedFacts<DagNode>(list, Tints(list));
    SiftedOrder<DagNode>(list, Tints(list));
    StaleIsListed<DagNode>(ins, facts, list);
    hide Sifted;
    assert Elems(tasks) == stale by {
      hide Stale, PostOrder, Known, NoDup, GreysFirst, Forced, Doomed;
      assert forall n | n in list :: Settled(ins, facts, stale, n);
    }
    forall n | n in list ensures Waits(n, stale) {
      StaleIsFixpoint<DagNode>(ins, facts, list, n);
      assert ins[n] == {} && n in stale ==> facts[n].phony;
      hide Stale, PostOrder, Known, NoDup, GreysFirst, Forced, Doomed;
      assert Settled(ins, facts, stale, n) && ins[n] == n.inList;
    }
    SiftedBlacks(list, tasks);
    hide Stale, PostOrder, Known, Settled, Forced, Doomed, Waits, AllSettled;
    forall i, j | 0 <= i < j < |tasks| && tasks[i].status == Black ensures tasks[j].status == Black {
      assert tasks[i] in tasks && tasks[j] in tasks;
      assert Tints(list)[tasks[i]] == Black;
    }
  }

  lemma SiftedBlacks(list: seq<DagNode>, tasks: seq<DagNode>)
    requires BlacksFollow<DagNode>(list, tasks, Tints(list)) && forall n | n in tasks :: n in list
    ensures BlacksStay(list, tasks)
  {
    forall i, j | 0 <= i < j < |tasks| && tasks[i].status == Black == tasks[j].status
      ensures Before<DagNode>(list, tasks[i], tasks[j])
    {
      assert tasks[i] in tasks && tasks[j] in tasks;
      assert Sieve.Tinted<DagNode>(Tints(list), tasks[i], Black) && Sieve.Tinted<DagNode>(Tints(list), tasks[j], Black);
    }
  }

  // ---------- outdated, by the graph and the file table alone ----------

  /** The file of `u` is later than that of `n`; a phony target and a missing file have time zero. */
  ghost predicate ChangedAfter(u: DagNode, n: DagNode, mtime: map<string, int>)
    reads u`kind, n`kind
  {
    var own := if n.kind != Phony && n.key in mtime then mtime[n.key] else 0;
    if u.kind != Phony && u.key in mtime then mtime[u.key] > own else 0 > own
  }

  /** With times that are not negative, only a file that is there can be later. */
  lemma LaterIsThere(u: DagNode, n: DagNode, mtime: map<string, int>)
    requires n.kind != Phony && forall k | k in mtime :: mtime[k] >= 0
    ensures ChangedAfter(u, n, mtime) <==>
            u.kind != Phony && u.key in mtime && (n.key in mtime ==> mtime[u.key] > mtime[n.key])
                                              && (n.key !in mtime ==> mtime[u.key] > 0)
  {}

  /** `n` has to be built when the nodes of `late` have to be. */
  ghost predicate MustBuild(n: DagNode, mtime: map<string, int>, late: set<DagNode>)
    reads n`kind, n`recipe, n`inList, n.inList`kind
  {
    || n.kind == Phony
    || (exists u | u in n.inList :: u in late)
    || (n.recipe != "" && exists u | u in n.inList :: ChangedAfter(u, n, mtime))
  }

  /** `n` cannot be built: it is a file without a recipe that is missing or has a late parent. */
  ghost predicate Unbuildable(n: DagNode, mtime: map<string, int>, late: set<DagNode>)
    reads n`kind, n`recipe, n`inList
  {
    n.kind != Phony && n.recipe == "" && (n.key !in mtime || exists u | u in n.inList :: u in late)
  }

  /** `late` contains every collected node that has to be built when its nodes have to be. */
  ghost predicate Covers(list: seq<DagNode>, mtime: map<string, int>, late: set<DagNode>)
    reads Elems(list)`kind, Elems(list)`recipe, Elems(list)`inList, (set n, u | n in Elems(list) && u in n.inList :: u)`kind
  {
    forall n | n in list && MustBuild(n, mtime, late) :: n in late
  }

  /** The outdated set of the theory is the least set that covers the list, and its nodes are those
      that have to be built. */
  lemma LateByFiles(list: seq<DagNode>, mtime: map<string, int>, n: DagNode)
    requires PostOrder<DagNode>(InsOf(list), {}, list) && Known<DagNode>(InsOf(list), FactsIn(list, mtime), list) && n in list
    ensures var late := Stale<DagNode>(InsOf(list), FactsIn(list, mtime), list);
            && (n in late <==> MustBuild(n, mtime, late))
            && (Doomed<DagNode>(InsOf(list), FactsIn(list, mtime), late, n) <==> Unbuildable(n, mtime, late))
  {
    var ins, facts := InsOf(list), FactsIn(list, mtime);
    var late: set<DagNode> := Stale<DagNode>(ins, facts, list);
    StaleIsFixpoint<DagNode>(ins, facts, list, n);
    ForcedByFiles(list, mtime, n);
    hide PostOrder, Stale, Forced, ChangedAfter;
    assert ins[n] * late != {} <==> exists u | u in n.inList :: u in late;
  }

  lemma ForcedByFiles(list: seq<DagNode>, mtime: map<string, int>, n: DagNode)
    requires Known<DagNode>(InsOf(list), FactsIn(list, mtime), list) && n in list
    ensures Forced<DagNode>(InsOf(list), FactsIn(list, mtime), n) <==>
            n.kind == Phony || (n.recipe != "" && exists u | u in n.inList :: ChangedAfter(u, n, mtime))
  {
    var facts := FactsIn(list, mtime);
    if n.kind != Phony {
      forall u | u in n.inList ensures u in facts && (ChangedAfter(u, n, mtime) <==> facts[u].time > facts[n].time) {
        assert u in InsOf(list).Keys;
      }
    }
  }

  lemma LeastByFiles(list: seq<DagNode>, mtime: map<string, int>, late: set<DagNode>)
    requires PostOrder<DagNode>(InsOf(list), {}, list) && Known<DagNode>(InsOf(list), FactsIn(list, mtime), list)
    requires Covers(list, mtime, late)
    ensures Stale<DagNode>(InsOf(list), FactsIn(list, mtime), list) <= late
  {
    var ins, facts := InsOf(list), FactsIn(list, mtime);
    forall n | n in list && (Forced<DagNode>(ins, facts, n) || ins[n] * late != {}) ensures n in late {
      ForcedByFiles(list, mtime, n);
      hide Forced, ChangedAfter, PostOrder, Known;
      assert ins[n] * late != {} ==> exists u | u in n.inList :: u in late;
      assert MustBuild(n, mtime, late);
    }
    StaleIsLeast<DagNode>(ins, facts, list, late);
  }

  /** The outdated nodes: the least set that covers the list. */
  ghost predicate AreLate(list: seq<DagNode>, mtime: map<string, int>, late: set<DagNode>)
    reads Elems(list)`kind, Elems(list)`recipe, Elems(list)`inList, (set n, u | n in Elems(list) && u in n.inList :: u)`kind
  {
    && late <= Elems(list)
    && (forall n | n in list :: n in late <==> MustBuild(n, mtime, late))
    && (forall t | t <= Elems(list) && Covers(list, mtime, t) :: late <= t)
  }

  /** How preprocessing ends: the new list holds exactly the outdated nodes and all of them can be built,
      or some outdated set shows a node that cannot be built. */
  ghost predicate Outcome(list: seq<DagNode>, mtime: map<string, int>, ok: bool, tasks: seq<DagNode>)
    reads Elems(list)`kind, Elems(list)`recipe, Elems(list)`inList, (set n, u | n in Elems(list) && u in n.inList :: u)`kind
  {
    if ok then AreLate(list, mtime, Elems(tasks)) && forall n | n in list :: !Unbuildable(n, mtime, Elems(tasks))
    else exists late | late <= Elems(list) :: AreLate(list, mtime, late) && exists n | n in list :: Unbuildable(n, mtime, late)
  }

  lemma StaleAreLate(list: seq<DagNode>, mtime: map<string, int>)
    requires PostOrder<DagNode>(InsOf(list), {}, list) && Known<DagNode>(InsOf(list), FactsIn(list, mtime), list)
    ensures AreLate(list, mtime, Stale<DagNode>(InsOf(list), FactsIn(list, mtime), list))
  {
    hide PostOrder, Known, Stale, MustBuild, Covers, InsOf, FactsIn, Doomed;
    var ins, facts := InsOf(list), FactsIn(list, mtime);
    var late: set<DagNode> := Stale<DagNode>(ins, facts, list);
    StaleIsListed<DagNode>(ins, facts, list);
    forall n | n in list ensures n in late <==> MustBuild(n, mtime, late) { LateByFiles(list, mtime, n); }
    forall t | t <= Elems(list) && Covers(list, mtime, t) ensures late <= t { LeastByFiles(list, mtime, t); }
  }

  lemma EndsByFiles(list: seq<DagNode>, mtime: map<string, int>, ok: bool, tasks: seq<DagNode>)
    requires PostOrder<DagNode>(InsOf(list), {}, list) && Known<DagNode>(InsOf(list), FactsIn(list, mtime), list)
    requires var ins, facts := InsOf(list), FactsIn(list, mtime);
             var late := Stale<DagNode>(ins, facts, list);
             if ok then Elems(tasks) == late && forall n | n in list :: !Doomed<DagNode>(ins, facts, late, n)
             else exists n | n in list :: Doomed<DagNode>(ins, facts, late, n)
    ensures Outcome(list, mtime, ok, tasks)
  {
    var late: set<DagNode> := Stale<DagNode>(InsOf(list), FactsIn(list, mtime), list);
    StaleAreLate(list, mtime);
    forall n | n in list
      ensures Doomed<DagNode>(InsOf(list), FactsIn(list, mtime), late, n) <==> Unbuildable(n, mtime, late)
    {
      LateByFiles(list, mtime, n);
    }
    hide PostOrder, Known, Stale, MustBuild, Covers, Doomed, Unbuildable, AreLate, InsOf, FactsIn;
    assert AreLate(list, mtime, late) ==> late <= Elems(list) by { LateListed(list, mtime, late); }
  }

  lemma LateListed(list: seq<DagNode>, mtime: map<string, int>, late: set<DagNode>)
    ensures AreLate(list, mtime, late) ==> late <= Elems(list)
  {}

  method Install(g: Dag, tasks: seq<DagNode>, ghost order: seq<DagNode>)
    requires g.Valid() && PostOrder<DagNode>(g.Parents(), {}, order) && NoDup(tasks) && GreyThenBlack(tasks) && BlacksStay(order, tasks)
    requires forall n | n in g.Nodes() && n !in order :: n.status == White
    requires forall n :: n in tasks <==> n in order && n.status != White
    requires forall n | n in order :: Waits(n, Elems(tasks))
    modifies g`taskList
    ensures g.taskList == tasks && Scheduling.Prepared(PlanOf(g, order))
  {
    g.taskList := tasks;
    PlanIsPrepared(g, order);
  }

  /** Preprocessing in terms of the outdated set: it fails exactly when some collected target is
      doomed, and otherwise the new list is exactly the outdated set, GREY nodes first, and every
      collected node waits for its outdated parents. */
  method PreprocessList(list: seq<DagNode>, mtime: map<string, int>) returns (ok: bool, tasks: seq<DagNode>)
    requires PostOrder<DagNode>(InsOf(list), {}, list)
    modifies Elems(list)`status, Elems(list)`waitBlack, Elems(list)`lmt
    ensures Known<DagNode>(old(InsOf(list)), old(FactsIn(list, mtime)), list)
    ensures var ins, facts := old(InsOf(list)), old(FactsIn(list, mtime));
            if ok then Elems(tasks) == Stale<DagNode>(ins, facts, list)
            else exists n | n in list :: Doomed<DagNode>(ins, facts, Stale<DagNode>(ins, facts, list), n)
    ensures Outcome(list, mtime, ok, tasks)
    ensures ok ==> NoDup(tasks) && GreyThenBlack(tasks) && BlacksStay(list, tasks)
    ensures ok ==> forall n :: n in tasks <==> n in list && n.status != White
    ensures ok ==> forall n | n in list :: Waits(n, Elems(tasks))
  {
    ghost var ins, facts := InsOf(list), FactsIn(list, mtime);
    hide PostOrder, Stale, Doomed, AllSettled, Sifted, InsOf, FactsIn, Known, Waits, GreyThenBlack, BlacksStay, NoDup, Outcome;
    ok, tasks := SchedulePreprocessing(list, mtime);
    if ok {
      SettledNodesWait(list, tasks, ins, facts);
      NoneDoomed(ins, facts, Stale<DagNode>(ins, facts, list), list);
    }
    EndsByFiles(list, mtime, ok, tasks);
  }

  lemma NoneDoomed(ins: map<DagNode, set<DagNode>>, facts: map<DagNode, Facts>, stale: set<DagNode>, list: seq<DagNode>)
    requires AllSettled(ins, facts, stale, list)
    ensures forall n | n in list :: n in ins && n in facts && !Doomed<DagNode>(ins, facts, stale, n)
  {
    hide Doomed, Settled;
  }

  lemma AnyTasks(list: seq<DagNode>, mtime: map<string, int>, a: seq<DagNode>, b: seq<DagNode>)
    ensures Outcome(list, mtime, false, a) ==> Outcome(list, mtime, false, b)
  {}

  /** The start of `schedule`: unless some collected target is doomed, the task list becomes
      exactly the outdated set and the plan is prepared. */
  method BeginSchedule(g: Dag, mtime: map<string, int>) returns (ok: bool)
    requires g.Valid() && g.Collected()
    modifies g`taskList, g.Nodes()`status, g.Nodes()`waitBlack, g.Nodes()`lmt
    ensures Known<DagNode>(old(InsOf(g.taskList)), old(FactsIn(g.taskList, mtime)), old(g.taskList))
    ensures var list, ins, facts := old(g.taskList), old(InsOf(g.taskList)), old(FactsIn(g.taskList, mtime));
            if ok then Elems(g.taskList) == Stale<DagNode>(ins, facts, list)
            else exists n | n in list :: Doomed<DagNode>(ins, facts, Stale<DagNode>(ins, facts, list), n)
    ensures Outcome(old(g.taskList), mtime, ok, g.taskList)
    ensures ok ==> Scheduling.Prepared(PlanOf(g, old(g.taskList)))
  {
    hide PostOrder, Stale, Doomed, InsOf, FactsIn, Known, Dag.Valid, Scheduling.Prepared, GreyThenBlack, BlacksStay, NoDup, Waits,
         PlanOf, Dag.Parents, Dag.Collected, Outcome;
    var order := g.taskList;
    CollectedPostOrder(g);
    var tasks;
    ok, tasks := PreprocessList(order, mtime);
    if ok { Install(g, tasks, order); } else { AnyTasks(order, mtime, tasks, g.taskList); }
  }
}
