// The successive-shortest-path minimum-cost flow solver used by sample
// profile inference: flat adjacency lists, each edge paired with a reverse
// edge by index, SPFA path search and bottleneck augmentation.
module MinCostFlowSolver {
  import opened Util

  /// Infinite capacity, weight or distance (2^40).
  const INF: int := 0x100_0000_0000

  /// Cost of raising a block's count by one unit.
  const AUX_COST_INC: int := 1
  /// Cost of lowering a block's count by one unit.
  const AUX_COST_DEC: int := 2
  /// Cost of raising the entry block's count by one unit (2^20).
  const AUX_COST_INC_ENTRY: int := 0x10_0000
  /// Cost of lowering the entry block's count by one unit (2^20).
  const AUX_COST_DEC_ENTRY: int := 0x10_0000
  /// Cost of sending a unit over an unlikely jump (2^20).
  const AUX_COST_UNLIKELY: int := 0x10_0000

  datatype Edge = Edge(cost: int, capacity: int, flow: int, dst: nat, revEdgeIndex: nat)

  /// Per-node scratch data of the path search; `parentNode == -1` means none.
  datatype Node = Node(distance: int, parentNode: int, parentEdgeIndex: int, taken: bool)

  /// The residual-graph invariant at one edge: the edge has a reverse edge at
  /// index `revEdgeIndex` of its destination's list that points back to it,
  /// with negated cost and negated flow; exactly one edge of the pair has a
  /// positive capacity, no capacity is negative and no flow exceeds its capacity.
  ghost predicate PairOk(es: seq<seq<Edge>>, u: nat, i: nat)
    requires u < |es| && i < |es[u]|
  {
    var e := es[u][i];
    e.dst < |es| && e.dst != u && e.revEdgeIndex < |es[e.dst]| &&
    var r := es[e.dst][e.revEdgeIndex];
    r.dst == u && r.revEdgeIndex == i && r.cost == -e.cost && r.flow == -e.flow &&
    0 <= e.capacity && e.flow <= e.capacity && ((e.capacity == 0) != (r.capacity == 0))
  }

  ghost predicate Linked(es: seq<seq<Edge>>)
  {
    forall u, i {:trigger PairOk(es, u, i)} :: 0 <= u < |es| && 0 <= i < |es[u]| ==> PairOk(es, u, i)
  }

  /// Two networks that differ at most in the flows.
  ghost predicate SameShape(a: seq<seq<Edge>>, b: seq<seq<Edge>>)
  {
    |a| == |b| &&
    (forall u :: 0 <= u < |a| ==> |a[u]| == |b[u]|) &&
    (forall u, i :: 0 <= u < |a| && 0 <= i < |a[u]| && i < |b[u]| ==>
       a[u][i].dst == b[u][i].dst && a[u][i].capacity == b[u][i].capacity &&
       a[u][i].cost == b[u][i].cost && a[u][i].revEdgeIndex == b[u][i].revEdgeIndex)
  }

  /// Net flow leaving a node: with paired edges, outflow minus inflow.
  function FlowSum(es: seq<Edge>): int
  {
    if es == [] then 0 else FlowSum(es[..|es| - 1]) + es[|es| - 1].flow
  }

  function CapacitySum(es: seq<Edge>): int
  {
    if es == [] then 0 else CapacitySum(es[..|es| - 1]) + es[|es| - 1].capacity
  }

  /// Total flow on the edges of one list that lead to `dst`.
  function FlowTo(es: seq<Edge>, dst: nat): int
  {
    if es == [] then 0
    else FlowTo(es[..|es| - 1], dst) + (if es[|es| - 1].dst == dst then es[|es| - 1].flow else 0)
  }

  /// Destinations of the edges carrying positive flow, one entry per edge.
  function Adjacent(es: seq<Edge>): seq<nat>
  {
    if es == [] then []
    else Adjacent(es[..|es| - 1]) + (if es[|es| - 1].flow > 0 then [es[|es| - 1].dst] else [])
  }

  /// Every entry of the adjacency list is the destination of an edge with positive flow.
  lemma {:induction false} AdjacentEdge(es: seq<Edge>, d: nat) returns (i: nat)
    requires d in Adjacent(es)
    ensures i < |es| && es[i].flow > 0 && es[i].dst == d
    decreases |es|
  {
    var last := |es| - 1;
    if d in Adjacent(es[..last]) {
      i := AdjacentEdge(es[..last], d);
    } else {
      i := last;
    }
  }

  /// Sum of cost times flow over the edges carrying positive flow.
  function ListCost(es: seq<Edge>): int
  {
    if es == [] then 0
    else ListCost(es[..|es| - 1]) + (if es[|es| - 1].flow > 0 then es[|es| - 1].cost * es[|es| - 1].flow else 0)
  }

  function TotalCost(es: seq<seq<Edge>>): int
  {
    if es == [] then 0 else TotalCost(es[..|es| - 1]) + ListCost(es[|es| - 1])
  }

  /// Pushes `d` units along edge `i` of node `u` and takes them back on its reverse edge.
  /// The network with an edge `src -> dst` appended to `src`'s list and its
  /// reverse edge (capacity 0, negated cost) appended to `dst`'s list, each
  /// recording the other's position.
  function WithEdge(es: seq<seq<Edge>>, src: nat, dst: nat, capacity: int, cost: int): seq<seq<Edge>>
    requires src < |es| && dst < |es|
  {
    es[src := es[src] + [Edge(cost, capacity, 0, dst, |es[dst]|)]]
      [dst := es[dst] + [Edge(-cost, 0, 0, src, |es[src]|)]]
  }

  /// (A network without such an edge is returned unchanged.)
  function Push(es: seq<seq<Edge>>, u: nat, i: int, d: int): seq<seq<Edge>>
  {
    if u < |es| && 0 <= i < |es[u]| && es[u][i].dst < |es| && es[u][i].revEdgeIndex < |es[es[u][i].dst]| then
      var e := es[u][i];
      var es1 := es[u := es[u][i := e.(flow := e.flow + d)]];
      var r := es1[e.dst][e.revEdgeIndex];
      es1[e.dst := es1[e.dst][e.revEdgeIndex := r.(flow := r.flow - d)]]
    else es
  }

  lemma {:induction false} FlowSumUpdate(es: seq<Edge>, i: nat, x: int)
    requires i < |es|
    ensures FlowSum(es[i := es[i].(flow := x)]) == FlowSum(es) - es[i].flow + x
    ensures CapacitySum(es[i := es[i].(flow := x)]) == CapacitySum(es)
    decreases |es|
  {
    var es' := es[i := es[i].(flow := x)];
    if i < |es| - 1 {
      assert es'[..|es'| - 1] == es[..|es| - 1][i := es[i].(flow := x)];
      FlowSumUpdate(es[..|es| - 1], i, x);
    } else {
      assert es'[..|es'| - 1] == es[..|es| - 1];
    }
  }

  lemma {:induction false} FlowSumBounded(es: seq<Edge>)
    requires forall i :: 0 <= i < |es| ==> es[i].flow <= es[i].capacity
    ensures FlowSum(es) <= CapacitySum(es)
    decreases |es|
  {
    if es != [] { FlowSumBounded(es[..|es| - 1]); }
  }

  lemma {:induction false} ShapeCapacity(a: seq<Edge>, b: seq<Edge>)
    requires |a| == |b| && forall i :: 0 <= i < |a| ==> a[i].capacity == b[i].capacity
    ensures CapacitySum(a) == CapacitySum(b)
    decreases |a|
  {
    if a != [] { ShapeCapacity(a[..|a| - 1], b[..|b| - 1]); }
  }

  /// Pushing a feasible amount keeps the residual-graph invariant, changes no
  /// capacity, and moves `d` units of net flow from the edge's target to its source.
  lemma {:induction false} PushKeepsLinked(es: seq<seq<Edge>>, u: nat, i: nat, d: int)
    requires Linked(es) && u < |es| && i < |es[u]| && PairOk(es, u, i)
    requires 0 <= d <= es[u][i].capacity - es[u][i].flow
    ensures Linked(Push(es, u, i, d))
    ensures SameShape(es, Push(es, u, i, d))
    ensures forall w :: 0 <= w < |es| ==>
      FlowSum(Push(es, u, i, d)[w]) ==
        FlowSum(es[w]) + (if w == u then d else if w == es[u][i].dst then -d else 0)
  {
    var r := Push(es, u, i, d);
    PushFlowSums(es, u, i, d);
    forall a, b | 0 <= a < |r| && 0 <= b < |r[a]|
      ensures PairOk(r, a, b)
    {
      PushPairOk(es, u, i, d, a, b);
    }
  }

  lemma {:induction false} PushFlowSums(es: seq<seq<Edge>>, u: nat, i: nat, d: int)
    requires Linked(es) && u < |es| && i < |es[u]| && PairOk(es, u, i)
    ensures SameShape(es, Push(es, u, i, d))
    ensures forall w :: 0 <= w < |es| ==>
      FlowSum(Push(es, u, i, d)[w]) ==
        FlowSum(es[w]) + (if w == u then d else if w == es[u][i].dst then -d else 0)
  {
    var e := es[u][i];
    var v, j := e.dst, e.revEdgeIndex;
    var r := Push(es, u, i, d);
    assert r[u] == es[u][i := e.(flow := e.flow + d)];
    assert r[v] == es[v][j := es[v][j].(flow := es[v][j].flow - d)];
    FlowSumUpdate(es[u], i, e.flow + d);
    FlowSumUpdate(es[v], j, es[v][j].flow - d);
  }

  lemma {:induction false} PushPairOk(es: seq<seq<Edge>>, u: nat, i: nat, d: int, a: nat, b: nat)
    requires Linked(es) && u < |es| && i < |es[u]|
    requires 0 <= d <= es[u][i].capacity - es[u][i].flow
    requires PairOk(es, u, i)
    requires a < |es| && b < |es[a]|
    ensures a < |Push(es, u, i, d)| && b < |Push(es, u, i, d)[a]| && PairOk(Push(es, u, i, d), a, b)
  {
    var e := es[u][i];
    var v, j := e.dst, e.revEdgeIndex;
    var r := Push(es, u, i, d);
    assert PairOk(es, a, b);
    var x := es[a][b];
    var y := es[x.dst][x.revEdgeIndex];
    if a == u && b == i {
    } else if a == v && b == j {
    } else {
      assert r[a][b] == x;
      assert !(x.dst == u && x.revEdgeIndex == i);
      assert !(x.dst == v && x.revEdgeIndex == j);
      assert r[x.dst][x.revEdgeIndex] == y;
    }
  }

  lemma {:induction false} ListCostAppend(es: seq<Edge>, e: Edge)
    ensures ListCost(es + [e]) == ListCost(es) + (if e.flow > 0 then e.cost * e.flow else 0)
  {
    assert (es + [e])[..|es|] == es;
  }

  /// A network in which no edge carries flow has total cost 0.
  lemma {:induction false} ZeroFlowZeroCost(es: seq<seq<Edge>>)
    requires forall u, i :: 0 <= u < |es| && 0 <= i < |es[u]| ==> es[u][i].flow == 0
    ensures TotalCost(es) == 0
    decreases |es|
  {
    if es != [] {
      ZeroFlowListCost(es[|es| - 1]);
      ZeroFlowZeroCost(es[..|es| - 1]);
    }
  }

  lemma {:induction false} ZeroFlowListCost(es: seq<Edge>)
    requires forall i :: 0 <= i < |es| ==> es[i].flow == 0
    ensures ListCost(es) == 0 && FlowSum(es) == 0
    decreases |es|
  {
    if es != [] { ZeroFlowListCost(es[..|es| - 1]); }
  }


  // ----- Path search (SPFA) over node and edge values -----

  /// The facts the path search keeps about one node: a distance never above
  /// INF; a reached node other than the source has a parent; a parent link
  /// names an edge into the node that still has residual capacity, from a
  /// reached node, and the node's distance is at least the parent's distance
  /// plus the edge cost.
  ghost predicate ParentOk(ns: seq<Node>, es: seq<seq<Edge>>, source: nat, v: nat)
    requires v < |ns| == |es|
  {
    var n := ns[v];
    n.distance <= INF &&
    (n.distance < INF && v != source ==> n.parentNode >= 0) &&
    (n.parentNode >= 0 ==>
      n.parentNode < |es| && 0 <= n.parentEdgeIndex < |es[n.parentNode]| &&
      es[n.parentNode][n.parentEdgeIndex].dst == v &&
      es[n.parentNode][n.parentEdgeIndex].flow < es[n.parentNode][n.parentEdgeIndex].capacity &&
      ns[n.parentNode].distance < INF &&
      n.distance >= ns[n.parentNode].distance + es[n.parentNode][n.parentEdgeIndex].cost)
  }

  ghost predicate ParentsOk(ns: seq<Node>, es: seq<seq<Edge>>, source: nat)
    requires |ns| == |es|
  {
    forall v :: 0 <= v < |ns| ==> ParentOk(ns, es, source, v)
  }

  /// Edges `0..upto` of node `u` that have residual capacity cannot shorten
  /// their destination's distance.
  ghost predicate SettledUpTo(ns: seq<Node>, es: seq<seq<Edge>>, u: nat, upto: nat)
    requires u < |ns| == |es|
  {
    forall i :: 0 <= i < upto && i < |es[u]| && es[u][i].flow < es[u][i].capacity && es[u][i].dst < |ns| ==>
      ns[es[u][i].dst].distance <= ns[u].distance + es[u][i].cost
  }

  /// The queue holds distinct reached nodes, and `taken` marks exactly the queued nodes.
  ghost predicate QueueOk(ns: seq<Node>, queue: seq<nat>)
  {
    (forall k :: 0 <= k < |queue| ==> queue[k] < |ns| && ns[queue[k]].distance < INF) &&
    (forall k, m :: 0 <= k < m < |queue| ==> queue[k] != queue[m]) &&
    (forall v :: 0 <= v < |ns| ==> (ns[v].taken <==> v in queue))
  }

  /// Every reached node outside the queue, except `skip`, is settled.
  ghost predicate SettledExcept(ns: seq<Node>, es: seq<seq<Edge>>, skip: int)
    requires |ns| == |es|
  {
    forall u :: 0 <= u < |ns| && u != skip && ns[u].distance < INF && !ns[u].taken ==>
      SettledUpTo(ns, es, u, |es[u]|)
  }

  ghost predicate SearchInv(ns: seq<Node>, es: seq<seq<Edge>>, source: nat, queue: seq<nat>, skip: int)
    requires |ns| == |es|
  {
    ParentsOk(ns, es, source) && QueueOk(ns, queue) && SettledExcept(ns, es, skip)
  }

  /// One relaxation of edge `i` of `src`: a cheaper distance for the edge's
  /// destination is recorded with its parent link, and the destination is
  /// queued unless it is queued already.
  function RelaxStep(ns: seq<Node>, queue: seq<nat>, es: seq<seq<Edge>>, src: nat, i: nat): (seq<Node>, seq<nat>)
    requires src < |ns| == |es| && i < |es[src]| && es[src][i].dst < |ns|
  {
    var e := es[src][i];
    if e.flow < e.capacity && ns[e.dst].distance > ns[src].distance + e.cost then
      var ns1 := ns[e.dst := ns[e.dst].(distance := ns[src].distance + e.cost, parentNode := src, parentEdgeIndex := i)];
      if !ns1[e.dst].taken then (ns1[e.dst := ns1[e.dst].(taken := true)], queue + [e.dst])
      else (ns1, queue)
    else (ns, queue)
  }

  /// Node data at the start of a search: every node unreached, without a
  /// parent and not queued, except the source at distance 0 in the queue.
  function InitialNodes(n: nat, source: nat): seq<Node>
  {
    seq(n, v => if v == source then Node(0, -1, -1, true) else Node(INF, -1, -1, false))
  }

  /// The search starts with only the source reached and queued.
  lemma {:induction false} InitialSearch(n: nat, es: seq<seq<Edge>>, source: nat)
    requires source < n == |es|
    ensures |InitialNodes(n, source)| == n
    ensures SearchInv(InitialNodes(n, source), es, source, [source], -1)
  {
    var ns := InitialNodes(n, source);
    forall v | 0 <= v < n ensures ParentOk(ns, es, source, v) && (ns[v].taken <==> v in [source]) {
      if v != source { assert ns[v] == Node(INF, -1, -1, false); }
    }
  }

  /// Popping the queue head keeps the invariant, with the popped node the
  /// only reached, unqueued node that may be unsettled.
  lemma {:induction false} PopKeeps(ns: seq<Node>, es: seq<seq<Edge>>, source: nat, queue: seq<nat>)
    requires |ns| == |es| && |queue| > 0 && SearchInv(ns, es, source, queue, -1)
    ensures queue[0] < |ns|
    ensures var ns' := ns[queue[0] := ns[queue[0]].(taken := false)];
      SearchInv(ns', es, source, queue[1..], queue[0]) && ns'[queue[0]].distance < INF
  {
    var src := queue[0];
    var ns' := ns[src := ns[src].(taken := false)];
    forall v | 0 <= v < |ns| ensures ParentOk(ns', es, source, v) {
      assert ParentOk(ns, es, source, v);
    }
    forall v | 0 <= v < |ns| ensures ns'[v].taken <==> v in queue[1..] {
      if v == src {
        forall k | 0 <= k < |queue[1..]| ensures queue[1..][k] != src { assert queue[k + 1] != queue[0]; }
      } else {
        assert v in queue <==> v in queue[1..] by {
          assert queue == [src] + queue[1..];
        }
      }
    }
    forall u | 0 <= u < |ns| && u != src && ns'[u].distance < INF && !ns'[u].taken
      ensures SettledUpTo(ns', es, u, |es[u]|)
    {
      assert SettledUpTo(ns, es, u, |es[u]|);
    }
  }

  lemma {:induction false} RelaxKeepsParents(ns: seq<Node>, queue: seq<nat>, es: seq<seq<Edge>>, source: nat, src: nat, i: nat)
    requires src < |ns| == |es| && i < |es[src]| && PairOk(es, src, i)
    requires ParentsOk(ns, es, source) && ns[src].distance < INF
    ensures |RelaxStep(ns, queue, es, src, i).0| == |ns|
    ensures ParentsOk(RelaxStep(ns, queue, es, src, i).0, es, source)
  {
    var ns' := RelaxStep(ns, queue, es, src, i).0;
    var e := es[src][i];
    if e.flow < e.capacity && ns[e.dst].distance > ns[src].distance + e.cost {
      assert ParentOk(ns, es, source, e.dst);
      forall v | 0 <= v < |ns| ensures ParentOk(ns', es, source, v) {
        assert ParentOk(ns, es, source, v);
      }
    }
  }

  lemma {:induction false} RelaxKeepsQueue(ns: seq<Node>, queue: seq<nat>, es: seq<seq<Edge>>, source: nat, src: nat, i: nat)
    requires src < |ns| == |es| && i < |es[src]| && PairOk(es, src, i)
    requires ParentsOk(ns, es, source) && QueueOk(ns, queue) && ns[src].distance < INF
    ensures QueueOk(RelaxStep(ns, queue, es, src, i).0, RelaxStep(ns, queue, es, src, i).1)
  {
    var e := es[src][i];
    if e.flow < e.capacity && ns[e.dst].distance > ns[src].distance + e.cost {
      assert ParentOk(ns, es, source, e.dst);
      var (ns', q') := RelaxStep(ns, queue, es, src, i);
      if !ns[e.dst].taken {
        assert e.dst !in queue;
        assert q' == queue + [e.dst];
        forall v | 0 <= v < |ns| ensures ns'[v].taken <==> v in q' {
          assert v in q' <==> v in queue || v == e.dst;
        }
      }
    }
  }

  lemma {:induction false} RelaxKeepsSettled(ns: seq<Node>, queue: seq<nat>, es: seq<seq<Edge>>, source: nat, src: nat, i: nat)
    requires src < |ns| == |es| && i < |es[src]| && PairOk(es, src, i)
    requires SettledExcept(ns, es, src) && ns[src].distance < INF && !ns[src].taken
    requires SettledUpTo(ns, es, src, i)
    ensures var ns' := RelaxStep(ns, queue, es, src, i).0;
      |ns'| == |ns| && SettledExcept(ns', es, src) &&
      ns'[src] == ns[src] && SettledUpTo(ns', es, src, i + 1)
  {
    var e := es[src][i];
    var ns' := RelaxStep(ns, queue, es, src, i).0;
    if e.flow < e.capacity && ns[e.dst].distance > ns[src].distance + e.cost {
      forall u | 0 <= u < |ns| && u != src && ns'[u].distance < INF && !ns'[u].taken
        ensures SettledUpTo(ns', es, u, |es[u]|)
      {
        assert SettledUpTo(ns, es, u, |es[u]|);
      }
    }
  }

  // ----- The parent chain -----

  /// One link of the parent chain: `v`'s parent is `p`, through an edge
  /// whose residual capacity is at least `amount`.
  ghost predicate ChainStep(ns: seq<Node>, es: seq<seq<Edge>>, v: nat, p: nat, amount: int)
  {
    v < |ns| && ns[v].parentNode == p && p < |es| &&
    0 <= ns[v].parentEdgeIndex < |es[p]| &&
    es[p][ns[v].parentEdgeIndex].dst == v &&
    amount <= es[p][ns[v].parentEdgeIndex].capacity - es[p][ns[v].parentEdgeIndex].flow
  }

  /// A walk of distinct nodes from the target along parent links, not
  /// passing through the source before its last node.
  ghost predicate PartialChain(ns: seq<Node>, es: seq<seq<Edge>>, source: nat, target: nat, chain: seq<nat>, amount: int)
  {
    0 < |chain| && chain[0] == target &&
    (forall k :: 0 <= k < |chain| ==> chain[k] < |es|) &&
    (forall k, m :: 0 <= k < m < |chain| ==> chain[k] != chain[m]) &&
    (forall k :: 0 <= k < |chain| - 1 ==> chain[k] != source && ChainStep(ns, es, chain[k], chain[k + 1], amount))
  }

  /// The parent chain from the target back to the source, each link with
  /// residual capacity at least `amount`.
  ghost predicate IsChain(ns: seq<Node>, es: seq<seq<Edge>>, source: nat, target: nat, chain: seq<nat>, amount: int)
  {
    PartialChain(ns, es, source, target, chain, amount) && chain[|chain| - 1] == source
  }

  /// The residual capacity of the parent link of `v`; INF when `v` has none.
  ghost function LinkResidual(ns: seq<Node>, es: seq<seq<Edge>>, v: nat): int
  {
    if v < |ns| && 0 <= ns[v].parentNode < |es| && 0 <= ns[v].parentEdgeIndex < |es[ns[v].parentNode]| then
      es[ns[v].parentNode][ns[v].parentEdgeIndex].capacity - es[ns[v].parentNode][ns[v].parentEdgeIndex].flow
    else INF
  }

  /// `amount` is INF or the residual capacity of one link of the chain.
  ghost predicate Attained(ns: seq<Node>, es: seq<seq<Edge>>, chain: seq<nat>, amount: int)
  {
    amount == INF || exists k :: 0 <= k < |chain| - 1 && amount == LinkResidual(ns, es, chain[k])
  }

  /// Extending a walk by one link keeps the running minimum attained when
  /// it is the old minimum or the residual of the new link.
  lemma {:induction false} AttainedExtend(ns: seq<Node>, es: seq<seq<Edge>>, chain: seq<nat>, amount: int, amount': int, p: nat)
    requires Attained(ns, es, chain, amount) && chain != []
    requires amount' == amount || amount' == LinkResidual(ns, es, chain[|chain| - 1])
    ensures Attained(ns, es, chain + [p], amount')
  {
    var c := chain + [p];
    assert c[|chain| - 1] == chain[|chain| - 1];
    if amount' == amount && amount != INF {
      var k :| 0 <= k < |chain| - 1 && amount == LinkResidual(ns, es, chain[k]);
      assert c[k] == chain[k];
    }
  }

  /// A walk extends by the parent of its last node.
  lemma {:induction false} ExtendChain(ns: seq<Node>, es: seq<seq<Edge>>, source: nat, target: nat, chain: seq<nat>,
                    amount: int, amount': int, p: nat)
    requires PartialChain(ns, es, source, target, chain, amount) && chain[|chain| - 1] != source
    requires p !in chain && ChainStep(ns, es, chain[|chain| - 1], p, amount') && amount' <= amount
    ensures PartialChain(ns, es, source, target, chain + [p], amount')
  {
    var c := chain + [p];
    forall k | 0 <= k < |c| - 1
      ensures c[k] != source && ChainStep(ns, es, c[k], c[k + 1], amount')
    {
      if k < |chain| - 1 { assert ChainStep(ns, es, chain[k], chain[k + 1], amount); }
    }
  }

  /// The network after pushing `d` units over the first `k` links of the chain.
  ghost function Augment(es: seq<seq<Edge>>, ns: seq<Node>, chain: seq<nat>, k: nat, d: int): seq<seq<Edge>>
    decreases k
  {
    if k == 0 || k >= |chain| || chain[k - 1] >= |ns| then es
    else Push(Augment(es, ns, chain, k - 1, d), chain[k], ns[chain[k - 1]].parentEdgeIndex, d)
  }

  /// A push changes only the lists of the edge's two ends.
  lemma {:induction false} PushFrame(es: seq<seq<Edge>>, u: nat, i: int, d: int)
    ensures |Push(es, u, i, d)| == |es|
    ensures forall w :: 0 <= w < |es| && w != u && (u < |es| && 0 <= i < |es[u]| ==> w != es[u][i].dst) ==>
      Push(es, u, i, d)[w] == es[w]
  {
  }

  /// Pushing over the first `k` links leaves the lists of the later chain nodes alone.
  lemma {:induction false} AugmentUntouched(es: seq<seq<Edge>>, ns: seq<Node>, source: nat, target: nat, chain: seq<nat>, k: nat, d: int)
    requires |ns| == |es| && IsChain(ns, es, source, target, chain, d) && k < |chain|
    ensures |Augment(es, ns, chain, k, d)| == |es|
    ensures forall m :: k < m < |chain| ==> Augment(es, ns, chain, k, d)[chain[m]] == es[chain[m]]
    decreases k
  {
    if k > 0 {
      AugmentUntouched(es, ns, source, target, chain, k - 1, d);
      var prev := Augment(es, ns, chain, k - 1, d);
      assert ChainStep(ns, es, chain[k - 1], chain[k], d);
      assert prev[chain[k]] == es[chain[k]];
      PushFrame(prev, chain[k], ns[chain[k - 1]].parentEdgeIndex, d);
    }
  }

  /// Link `k + 1` of the chain is an edge of the partly augmented network
  /// into node `k` with an in-range reverse edge, and augmenting it is a push.
  lemma {:induction false} AugmentStep(es: seq<seq<Edge>>, ns: seq<Node>, source: nat, target: nat, chain: seq<nat>, k: nat, d: int)
    requires |ns| == |es| && Linked(es) && IsChain(ns, es, source, target, chain, d) && 0 <= d && k < |chain| - 1
    ensures var a := Augment(es, ns, chain, k, d);
      var p := chain[k + 1];
      var idx := ns[chain[k]].parentEdgeIndex;
      |a| == |es| && chain[k] < |a| && ns[chain[k]].parentNode == p && p < |a| && 0 <= idx < |a[p]| &&
      a[p][idx].dst == chain[k] && a[p][idx].revEdgeIndex < |a[chain[k]]| && p != chain[k] &&
      Augment(es, ns, chain, k + 1, d) == Push(a, p, idx, d)
  {
    AugmentUntouched(es, ns, source, target, chain, k, d);
    AugmentKeepsLinked(es, ns, source, target, chain, k, d);
    assert ChainStep(ns, es, chain[k], chain[k + 1], d);
    assert PairOk(Augment(es, ns, chain, k, d), chain[k + 1], ns[chain[k]].parentEdgeIndex);
  }

  /// Pushing a feasible amount over the first `k` links keeps the residual
  /// invariant and the shape, and moves `d` units of net flow from the first
  /// chain node (the target) to the `k`-th.
  lemma {:induction false} AugmentKeepsLinked(es: seq<seq<Edge>>, ns: seq<Node>, source: nat, target: nat, chain: seq<nat>, k: nat, d: int)
    requires |ns| == |es| && Linked(es) && IsChain(ns, es, source, target, chain, d) && 0 <= d && k < |chain|
    ensures Linked(Augment(es, ns, chain, k, d)) && SameShape(es, Augment(es, ns, chain, k, d))
    ensures forall w :: 0 <= w < |es| ==>
      FlowSum(Augment(es, ns, chain, k, d)[w]) ==
        FlowSum(es[w]) + (if k > 0 && w == chain[k] then d else 0) - (if k > 0 && w == chain[0] then d else 0)
    decreases k
  {
    if k > 0 {
      AugmentKeepsLinked(es, ns, source, target, chain, k - 1, d);
      AugmentUntouched(es, ns, source, target, chain, k - 1, d);
      var prev := Augment(es, ns, chain, k - 1, d);
      var idx := ns[chain[k - 1]].parentEdgeIndex;
      assert ChainStep(ns, es, chain[k - 1], chain[k], d);
      assert prev[chain[k]] == es[chain[k]];
      assert PairOk(prev, chain[k], idx);
      PushKeepsLinked(prev, chain[k], idx, d);
      ShapeTransitive(es, prev, Augment(es, ns, chain, k, d));
      assert chain[k] != chain[0];
    }
  }

  /// A network of `m` nodes and no edges.
  function EmptyLists(m: nat): (r: seq<seq<Edge>>)
    ensures |r| == m && forall u :: 0 <= u < m ==> r[u] == []
  {
    seq(m, _ => [])
  }

  class MinCostFlow {
    var nodes: seq<Node>
    var edges: seq<seq<Edge>>
    var source: nat
    var target: nat

    ghost predicate Valid()
      reads this
    {
      |nodes| == |edges| && source < |edges| && target < |edges| && Linked(edges)
    }

    constructor Initialize(nodeCount: nat, source: nat, target: nat)
      requires source < nodeCount && target < nodeCount
      ensures Valid()
      ensures edges == EmptyLists(nodeCount)
      ensures this.source == source && this.target == target
    {
      this.source := source;
      this.target := target;
      nodes := seq(nodeCount, _ => Node(INF, -1, -1, false));
      edges := EmptyLists(nodeCount);
    }

    /// Adds an edge and its reverse edge (capacity 0, negated cost).
    method AddEdge(src: nat, dst: nat, capacity: int, cost: int)
      requires Valid() && src < |edges| && dst < |edges|
      requires capacity > 0 && src != dst
      modifies this
      ensures Valid() && nodes == old(nodes) && source == old(source) && target == old(target)
      ensures edges == WithEdge(old(edges), src, dst, capacity, cost)
    {
      var srcEdge := Edge(cost, capacity, 0, dst, |edges[dst]|);
      var dstEdge := Edge(-cost, 0, 0, src, |edges[src]|);
      ghost var es := edges;
      edges := edges[src := edges[src] + [srcEdge]];
      edges := edges[dst := edges[dst] + [dstEdge]];
      forall u, i | 0 <= u < |edges| && 0 <= i < |edges[u]|
        ensures PairOk(edges, u, i)
      {
        if i < |es[u]| {
          assert PairOk(es, u, i);
          assert edges[u][i] == es[u][i];
          assert edges[es[u][i].dst][es[u][i].revEdgeIndex] == es[es[u][i].dst][es[u][i].revEdgeIndex];
        }
      }
    }

    /// The overload that adds an edge of infinite capacity.
    method AddInfEdge(src: nat, dst: nat, cost: int)
      requires Valid() && src < |edges| && dst < |edges| && src != dst
      modifies this
      ensures Valid() && nodes == old(nodes) && source == old(source) && target == old(target)
      ensures edges == WithEdge(old(edges), src, dst, INF, cost)
    {
      AddEdge(src, dst, INF, cost);
    }

    /// Destinations of the positive-flow edges out of `src`, one per edge.
    method AdjacentNodes(src: nat) returns (adjacent: seq<nat>)
      requires src < |edges|
      ensures adjacent == Adjacent(edges[src])
    {
      adjacent := [];
      var i := 0;
      while i < |edges[src]|
        invariant 0 <= i <= |edges[src]|
        invariant adjacent == Adjacent(edges[src][..i])
      {
        assert edges[src][..i + 1][..i] == edges[src][..i];
        if edges[src][i].flow > 0 {
          adjacent := adjacent + [edges[src][i].dst];
        }
        i := i + 1;
      }
      assert edges[src][..i] == edges[src];
    }

    /// Total flow from `src` to `dst` over all parallel edges (reverse edges included).
    method GetFlow(src: nat, dst: nat) returns (flow: int)
      requires src < |edges|
      ensures flow == FlowTo(edges[src], dst)
    {
      flow := 0;
      var i := 0;
      while i < |edges[src]|
        invariant 0 <= i <= |edges[src]|
        invariant flow == FlowTo(edges[src][..i], dst)
      {
        assert edges[src][..i + 1][..i] == edges[src][..i];
        if edges[src][i].dst == dst {
          flow := flow + edges[src][i].flow;
        }
        i := i + 1;
      }
      assert edges[src][..i] == edges[src];
    }

    /// Upper bound on the queue pops of one search.
    function PopBudget(): nat
      reads this
    {
      |nodes| * |nodes| * (|nodes| + 1) + 1
    }

    /// SPFA search for a cheapest path in the residual network. `complete` is
    /// false when the queue was still non-empty after PopBudget() pops.
    method FindAugmentingPath() returns (found: bool, complete: bool)
      requires Valid()
      modifies this
      ensures Valid() && edges == old(edges) && source == old(source) && target == old(target)
      ensures ParentsOk(nodes, edges, source)
      ensures found ==> complete && nodes[target].distance < INF
      ensures complete ==> (found <==> nodes[target].distance != INF)
      ensures complete ==> forall u :: 0 <= u < |nodes| && nodes[u].distance < INF ==> SettledUpTo(nodes, edges, u, |edges[u]|)
    {
      var n := |nodes|;
      nodes := InitialNodes(n, source);
      var queue: seq<nat> := [source];
      InitialSearch(n, edges, source);
      var pops := 0;
      var budget := PopBudget();
      while |queue| > 0 && pops < budget
        invariant Valid() && |nodes| == n && edges == old(edges) && source == old(source) && target == old(target)
        invariant SearchInv(nodes, edges, source, queue, -1)
        invariant pops <= budget
        decreases budget - pops
      {
        PopKeeps(nodes, edges, source, queue);
        var src := queue[0];
        queue := queue[1..];
        pops := pops + 1;
        nodes := nodes[src := nodes[src].(taken := false)];
        queue := RelaxEdges(src, queue);
      }
      complete := |queue| == 0;
      found := complete && nodes[target].distance != INF;
      assert ParentOk(nodes, edges, source, target);
    }

    /// The inner loop of findAugmentingPath: relaxes every edge of the popped node `src`.
    method RelaxEdges(src: nat, queue: seq<nat>) returns (queue': seq<nat>)
      requires Valid() && src < |nodes| && SearchInv(nodes, edges, source, queue, src)
      requires nodes[src].distance < INF && !nodes[src].taken
      modifies this
      ensures Valid() && |nodes| == |old(nodes)| && edges == old(edges) && source == old(source) && target == old(target)
      ensures SearchInv(nodes, edges, source, queue', -1)
    {
      queue' := queue;
      var i := 0;
      while i < |edges[src]|
        invariant Valid() && |nodes| == |old(nodes)| && edges == old(edges) && source == old(source) && target == old(target)
        invariant 0 <= i <= |edges[src]|
        invariant SearchInv(nodes, edges, source, queue', src)
        invariant nodes[src].distance < INF && !nodes[src].taken && SettledUpTo(nodes, edges, src, i)
      {
        assert PairOk(edges, src, i);
        RelaxKeepsParents(nodes, queue', edges, source, src, i);
        RelaxKeepsQueue(nodes, queue', edges, source, src, i);
        RelaxKeepsSettled(nodes, queue', edges, source, src, i);
        ghost var next := RelaxStep(nodes, queue', edges, src, i);
        var edge := edges[src][i];
        if edge.flow < edge.capacity {
          var dst := edge.dst;
          if nodes[dst].distance > nodes[src].distance + edge.cost {
            nodes := nodes[dst := nodes[dst].(distance := nodes[src].distance + edge.cost,
                                               parentNode := src, parentEdgeIndex := i)];
            if !nodes[dst].taken {
              queue' := queue' + [dst];
              nodes := nodes[dst := nodes[dst].(taken := true)];
            }
          }
        }
        assert (nodes, queue') == next;
        i := i + 1;
      }
    }

    /// The first loop of updateAugmentingPath: the smallest residual capacity
    /// on the parent chain (INF when every link has at least that much). It
    /// is positive whenever the chain reaches the source; `ok` is false when
    /// the chain revisits a node first (the C++ loop never ends on such a
    /// chain).
    method FindPathCapacity() returns (ok: bool, pathCapacity: int, ghost chain: seq<nat>)
      requires Valid() && ParentsOk(nodes, edges, source) && nodes[target].distance < INF
      ensures ok ==> 0 < pathCapacity <= INF
      ensures ok ==> IsChain(nodes, edges, source, target, chain, pathCapacity)
      ensures ok ==> Attained(nodes, edges, chain, pathCapacity)
    {
      pathCapacity := INF;
      var now := target;
      var seen: set<nat> := {target};
      chain := [target];
      ok := true;
      while now != source
        invariant CapacityWalk(chain, seen, now, pathCapacity)
        decreases |edges| - |seen|
      {
        var pred;
        pred, pathCapacity := ParentLink(now, chain, pathCapacity);
        if pred in seen {
          ok := false;
          return;
        }
        SubsetSize(seen, NodeRange(|edges|));
        seen := seen + {pred};
        chain := chain + [pred];
        now := pred;
      }
    }

    /// The state of the walk in updateAugmentingPath: `chain` is the walk
    /// so far, ending at `now`, `seen` its nodes, `amount` its attained
    /// minimum residual capacity.
    ghost predicate CapacityWalk(chain: seq<nat>, seen: set<nat>, now: nat, amount: int)
      reads this
      requires Valid()
    {
      PartialChain(nodes, edges, source, target, chain, amount) && chain[|chain| - 1] == now &&
      Attained(nodes, edges, chain, amount) &&
      (forall x :: x in seen <==> x in chain) && seen <= NodeRange(|edges|) &&
      now < |nodes| && nodes[now].distance < INF && 0 < amount <= INF
    }

    /// One link of the walk in updateAugmentingPath: the parent of `now` and
    /// the running minimum taken with the residual capacity of the parent
    /// edge. Following it to a node not yet on the walk keeps the walk a
    /// chain whose minimum is attained.
    method ParentLink(now: nat, ghost chain: seq<nat>, amount: int) returns (pred: nat, amount': int)
      requires Valid() && ParentsOk(nodes, edges, source)
      requires now < |nodes| && now != source && nodes[now].distance < INF && 0 < amount <= INF
      requires PartialChain(nodes, edges, source, target, chain, amount) && chain[|chain| - 1] == now
      requires Attained(nodes, edges, chain, amount)
      ensures pred == nodes[now].parentNode && pred < |nodes| && nodes[pred].distance < INF
      ensures 0 < amount' <= amount
      ensures amount' == amount || amount' == LinkResidual(nodes, edges, now)
      ensures pred !in chain ==> PartialChain(nodes, edges, source, target, chain + [pred], amount')
      ensures pred !in chain ==> Attained(nodes, edges, chain + [pred], amount')
    {
      assert ParentOk(nodes, edges, source, now);
      pred := nodes[now].parentNode;
      var edge := edges[pred][nodes[now].parentEdgeIndex];
      amount' := Min(amount, edge.capacity - edge.flow);
      if pred !in chain {
        ExtendChain(nodes, edges, source, target, chain, amount, amount', pred);
        AttainedExtend(nodes, edges, chain, amount, amount', pred);
      }
    }

    /// Pushes the bottleneck residual capacity along the parent chain from the
    /// target back to the source. `ok` is false when the chain revisits a node
    /// before reaching the source; the flows are then left unchanged.
    method UpdateAugmentingPath() returns (ok: bool)
      requires Valid() && ParentsOk(nodes, edges, source) && source != target && nodes[target].distance < INF
      modifies this
      ensures Valid() && nodes == old(nodes) && source == old(source) && target == old(target)
      ensures SameShape(old(edges), edges)
      ensures !ok ==> edges == old(edges)
      ensures ok ==> FlowSum(edges[source]) > FlowSum(old(edges)[source])
      ensures ok ==> FlowSum(edges[source]) - FlowSum(old(edges)[source]) ==
                     FlowSum(old(edges)[target]) - FlowSum(edges[target])
      ensures forall w :: 0 <= w < |edges| && w != source && w != target ==>
                FlowSum(edges[w]) == FlowSum(old(edges)[w])
    {
      var pathCapacity;
      ghost var chain;
      ok, pathCapacity, chain := FindPathCapacity();
      if !ok {
        return;
      }
      AugmentPath(pathCapacity, chain);
    }

    /// The second loop of updateAugmentingPath: `d` units more flow on every
    /// link of the parent chain, and `d` units less on each reverse edge.
    method AugmentPath(d: int, ghost chain: seq<nat>)
      requires Valid() && source != target && 0 < d && IsChain(nodes, edges, source, target, chain, d)
      modifies this
      ensures Valid() && nodes == old(nodes) && source == old(source) && target == old(target)
      ensures SameShape(old(edges), edges)
      ensures FlowSum(edges[source]) == FlowSum(old(edges)[source]) + d
      ensures FlowSum(edges[target]) == FlowSum(old(edges)[target]) - d
      ensures forall w :: 0 <= w < |edges| && w != source && w != target ==>
                FlowSum(edges[w]) == FlowSum(old(edges)[w])
    {
      ghost var es0 := edges;
      var now := target;
      ghost var k: nat := 0;
      while now != source
        invariant nodes == old(nodes) && source == old(source) && target == old(target)
        invariant k < |chain| && now == chain[k]
        invariant edges == Augment(es0, nodes, chain, k, d)
        decreases |chain| - k
      {
        assert k < |chain| - 1;
        AugmentStep(es0, nodes, source, target, chain, k, d);
        now := PushToParent(now, d);
        k := k + 1;
      }
      AugmentKeepsLinked(es0, nodes, source, target, chain, k, d);
      AugmentUntouched(es0, nodes, source, target, chain, k, d);
    }

    /// One link of the path: `d` units more flow on the edge from the parent
    /// of `now` into `now`, and `d` units less on its reverse edge.
    method PushToParent(now: nat, d: int) returns (pred: nat)
      requires now < |nodes| && |nodes| == |edges|
      requires 0 <= nodes[now].parentNode < |edges| && 0 <= nodes[now].parentEdgeIndex < |edges[nodes[now].parentNode]|
      requires edges[nodes[now].parentNode][nodes[now].parentEdgeIndex].dst == now
      requires edges[nodes[now].parentNode][nodes[now].parentEdgeIndex].revEdgeIndex < |edges[now]|
      requires nodes[now].parentNode != now
      modifies this
      ensures nodes == old(nodes) && source == old(source) && target == old(target)
      ensures pred == nodes[now].parentNode
      ensures edges == Push(old(edges), pred, nodes[now].parentEdgeIndex, d)
    {
      pred := nodes[now].parentNode;
      var edge := edges[pred][nodes[now].parentEdgeIndex];
      edges := edges[pred := edges[pred][nodes[now].parentEdgeIndex := edge.(flow := edge.flow + d)]];
      var revEdge := edges[now][edge.revEdgeIndex];
      edges := edges[now := edges[now][edge.revEdgeIndex := revEdge.(flow := revEdge.flow - d)]];
    }

    /// Runs augmentations until no augmenting path is found, then returns the
    /// total cost of the flow. Flow is conserved at every node except the
    /// source and the target, and what leaves the source reaches the target.
    method Run() returns (totalCost: int)
      requires Valid() && source != target
      modifies this
      ensures Valid() && source == old(source) && target == old(target)
      ensures SameShape(old(edges), edges)
      ensures forall w :: 0 <= w < |edges| && w != source && w != target ==>
                FlowSum(edges[w]) == FlowSum(old(edges)[w])
      ensures FlowSum(edges[source]) - FlowSum(old(edges)[source]) ==
              FlowSum(old(edges)[target]) - FlowSum(edges[target])
      ensures totalCost == TotalCost(edges)
    {
      ghost var es0 := edges;
      while true
        invariant Valid() && source == old(source) && target == old(target)
        invariant SameShape(es0, edges)
        invariant forall w :: 0 <= w < |edges| && w != source && w != target ==>
                    FlowSum(edges[w]) == FlowSum(es0[w])
        invariant FlowSum(edges[source]) - FlowSum(es0[source]) == FlowSum(es0[target]) - FlowSum(edges[target])
        decreases CapacitySum(edges[source]) - FlowSum(edges[source])
      {
        SourceBound(edges, source);
        var found, complete := FindAugmentingPath();
        if !found {
          break;
        }
        ghost var before := edges;
        var ok := UpdateAugmentingPath();
        if !ok {
          break;
        }
        ShapeTransitive(es0, before, edges);
        ShapeCapacity(before[source], edges[source]);
      }
      totalCost := ComputeTotalCost();
    }

    /// Sum of cost times flow over all edges with positive flow.
    method ComputeTotalCost() returns (totalCost: int)
      ensures totalCost == TotalCost(edges)
    {
      totalCost := 0;
      var src := 0;
      while src < |edges|
        invariant 0 <= src <= |edges|
        invariant totalCost == TotalCost(edges[..src])
      {
        assert edges[..src + 1][..src] == edges[..src];
        var listCost := 0;
        var i := 0;
        while i < |edges[src]|
          invariant 0 <= i <= |edges[src]|
          invariant listCost == ListCost(edges[src][..i])
        {
          assert edges[src][..i + 1][..i] == edges[src][..i];
          if edges[src][i].flow > 0 {
            listCost := listCost + edges[src][i].cost * edges[src][i].flow;
          }
          i := i + 1;
        }
        assert edges[src][..i] == edges[src];
        totalCost := totalCost + listCost;
        src := src + 1;
      }
      assert edges[..src] == edges;
    }
  }

  lemma {:induction false} SourceBound(es: seq<seq<Edge>>, s: nat)
    requires Linked(es) && s < |es|
    ensures FlowSum(es[s]) <= CapacitySum(es[s])
  {
    forall i | 0 <= i < |es[s]| ensures es[s][i].flow <= es[s][i].capacity {
      assert PairOk(es, s, i);
    }
    FlowSumBounded(es[s]);
  }

  lemma {:induction false} ShapeTransitive(a: seq<seq<Edge>>, b: seq<seq<Edge>>, c: seq<seq<Edge>>)
    requires SameShape(a, b) && SameShape(b, c)
    ensures SameShape(a, c)
  {
  }

  /// The node numbers below `n`.
  function NodeRange(n: nat): (r: set<nat>)
    ensures forall v: nat :: v in r <==> v < n
    ensures |r| == n
  {
    if n == 0 then {} else
    var r := NodeRange(n - 1);
    assert n - 1 !in r;
    r + {n - 1}
  }

  lemma {:induction false} SubsetSize<T>(a: set<T>, b: set<T>)
    requires a <= b
    ensures |a| <= |b|
  {
    assert b == a + (b - a);
  }
}
