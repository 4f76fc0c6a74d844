// Reading the solved network back into block and jump counts
// (extractWeights), and why the counts it reads are never negative.
module FlowExtraction {
  import opened Util
  import opened FlowGraph
  import opened MinCostFlowSolver
  import opened FlowNetwork

  /// Node `d` is the aux node of some block.
  predicate IsAuxNode(n: nat, d: nat)
  {
    d < 3 * n && d % 3 == 2
  }

  /// The count read for a block over the adjacency entries `adj` of its out
  /// node: getFlow to each entry, skipping aux nodes unless the block has a
  /// self-edge. An entry listed twice is counted twice.
  function AdjacentFlow(out: seq<Edge>, adj: seq<nat>, n: nat, hasSelfEdge: bool): int
  {
    if adj == [] then 0
    else
      var d := adj[|adj| - 1];
      AdjacentFlow(out, adj[..|adj| - 1], n, hasSelfEdge) +
      (if !IsAuxNode(n, d) || hasSelfEdge then FlowTo(out, d) else 0)
  }

  /// The count extractWeights gives block `b` of `n`.
  function BlockFlow(es: seq<seq<Edge>>, n: nat, b: nat, hasSelfEdge: bool): int
    requires OutNode(b) < |es|
  {
    AdjacentFlow(es[OutNode(b)], Adjacent(es[OutNode(b)]), n, hasSelfEdge)
  }

  /// The count extractWeights gives a jump: the flow from the source's out
  /// node to the target's in node, or for a self-jump the positive part of
  /// the flow into the block's aux node.
  function JumpFlow(es: seq<seq<Edge>>, jmp: FlowJump): int
    requires OutNode(jmp.source) < |es|
  {
    if jmp.source != jmp.target then FlowTo(es[OutNode(jmp.source)], InNode(jmp.target))
    else
      var aux := FlowTo(es[OutNode(jmp.source)], AuxNode(jmp.source));
      if aux > 0 then aux else 0
  }

  /// Stores the solved counts in the blocks and jumps of `f`; nothing else changes.
  method ExtractWeights(network: MinCostFlow, f: FlowFunction)
    requires f.Valid() && |network.edges| == NodeCount(|f.blocks|)
    modifies f
    ensures f.Valid() && f.entry == old(f.entry)
    ensures |f.blocks| == |old(f.blocks)| && |f.jumps| == |old(f.jumps)|
    ensures forall b :: 0 <= b < |f.blocks| ==>
      f.blocks[b] == old(f.blocks[b]).(flow := BlockFlow(network.edges, |f.blocks|, b, old(f.blocks[b]).hasSelfEdge))
    ensures forall j :: 0 <= j < |f.jumps| ==>
      f.jumps[j] == old(f.jumps[j]).(flow := JumpFlow(network.edges, old(f.jumps[j])))
  {
    var n := |f.blocks|;
    var src := 0;
    while src < n
      invariant 0 <= src <= n && |f.blocks| == n && f.jumps == old(f.jumps) && f.entry == old(f.entry)
      invariant forall b :: 0 <= b < src ==>
        f.blocks[b] == old(f.blocks[b]).(flow := BlockFlow(network.edges, n, b, old(f.blocks[b]).hasSelfEdge))
      invariant forall b :: src <= b < n ==> f.blocks[b] == old(f.blocks[b])
    {
      var flow := ReadBlockFlow(network, n, src, f.blocks[src].hasSelfEdge);
      f.blocks := f.blocks[src := f.blocks[src].(flow := flow)];
      src := src + 1;
    }

    var j := 0;
    while j < |f.jumps|
      invariant 0 <= j <= |f.jumps| == |old(f.jumps)| && |f.blocks| == n && f.entry == old(f.entry)
      invariant forall b :: 0 <= b < n ==>
        f.blocks[b] == old(f.blocks[b]).(flow := BlockFlow(network.edges, n, b, old(f.blocks[b]).hasSelfEdge))
      invariant forall k :: 0 <= k < j ==> f.jumps[k] == old(f.jumps[k]).(flow := JumpFlow(network.edges, old(f.jumps[k])))
      invariant forall k :: j <= k < |f.jumps| ==> f.jumps[k] == old(f.jumps[k])
    {
      var flow := ReadJumpFlow(network, n, f.jumps[j]);
      f.jumps := f.jumps[j := f.jumps[j].(flow := flow)];
      j := j + 1;
    }
  }

  /// The block loop body of extractWeights: sums getFlow over the adjacent nodes.
  method ReadBlockFlow(network: MinCostFlow, n: nat, b: nat, hasSelfEdge: bool) returns (flow: int)
    requires b < n && |network.edges| == NodeCount(n)
    ensures flow == BlockFlow(network.edges, n, b, hasSelfEdge)
  {
    var srcOut := 3 * b + 1;
    var adjacent := network.AdjacentNodes(srcOut);
    flow := 0;
    var k := 0;
    while k < |adjacent|
      invariant 0 <= k <= |adjacent|
      invariant flow == AdjacentFlow(network.edges[srcOut], adjacent[..k], n, hasSelfEdge)
    {
      assert adjacent[..k + 1][..k] == adjacent[..k];
      var dst := adjacent[k];
      var isAuxNode := dst < 3 * n && dst % 3 == 2;
      if !isAuxNode || hasSelfEdge {
        var getFlow := network.GetFlow(srcOut, dst);
        flow := flow + getFlow;
      }
      k := k + 1;
    }
    assert adjacent[..k] == adjacent;
  }

  /// The jump loop body of extractWeights.
  method ReadJumpFlow(network: MinCostFlow, n: nat, jmp: FlowJump) returns (flow: int)
    requires jmp.source < n && jmp.target < n && |network.edges| == NodeCount(n)
    ensures flow == JumpFlow(network.edges, jmp)
  {
    flow := 0;
    var src, dst := jmp.source, jmp.target;
    if src != dst {
      flow := network.GetFlow(3 * src + 1, 3 * dst);
    } else {
      var auxFlow := network.GetFlow(3 * src + 1, 3 * src + 2);
      if auxFlow > 0 {
        flow := auxFlow;
      }
    }
  }

  // ----- The counts read are never negative -----

  /// An edge with positive capacity never carries negative flow: its
  /// reverse edge has capacity 0 and carries the negated flow.
  lemma {:induction false} ForwardFlowNonNegative(es: seq<seq<Edge>>, u: nat, i: nat)
    requires Linked(es) && u < |es| && i < |es[u]| && es[u][i].capacity > 0
    ensures es[u][i].flow >= 0
  {
    var e := es[u][i];
    assert PairOk(es, u, i);
    assert PairOk(es, e.dst, e.revEdgeIndex);
  }

  lemma {:induction false} FlowToNonNegative(l: seq<Edge>, d: nat)
    requires forall i :: 0 <= i < |l| && l[i].dst == d ==> l[i].flow >= 0
    ensures FlowTo(l, d) >= 0
    decreases |l|
  {
    if l != [] {
      FlowToNonNegative(l[..|l| - 1], d);
    }
  }

  lemma {:induction false} AdjacentFlowNonNegative(out: seq<Edge>, adj: seq<nat>, n: nat, hasSelfEdge: bool)
    requires forall k :: 0 <= k < |adj| && (!IsAuxNode(n, adj[k]) || hasSelfEdge) ==> FlowTo(out, adj[k]) >= 0
    ensures AdjacentFlow(out, adj, n, hasSelfEdge) >= 0
    decreases |adj|
  {
    if adj != [] {
      AdjacentFlowNonNegative(out, adj[..|adj| - 1], n, hasSelfEdge);
    }
  }

  /// A node that no edge of the list carries positive flow to is not adjacent.
  lemma {:induction false} NotAdjacent(l: seq<Edge>, d: nat)
    requires forall i :: 0 <= i < |l| && l[i].dst == d ==> l[i].flow <= 0
    ensures d !in Adjacent(l)
    decreases |l|
  {
    if l != [] {
      NotAdjacent(l[..|l| - 1], d);
    }
  }

  /// The out node of a block sends to S1 only along reverse edges, so S1
  /// never appears among its adjacent nodes.
  lemma {:induction false} NoFlowOutToS1(es: seq<seq<Edge>>, n: nat, b: nat)
    requires Linked(es) && EdgesGood(n, es) && |es| == NodeCount(n) && b < n
    ensures S1Node(n) !in Adjacent(es[OutNode(b)])
  {
    var u := OutNode(b);
    assert u < 3 * n && u % 3 == 1;
    forall i | 0 <= i < |es[u]| && es[u][i].dst == S1Node(n)
      ensures es[u][i].flow <= 0
    {
      assert PairOk(es, u, i);
    }
    NotAdjacent(es[u], S1Node(n));
  }

  /// Every edge from a block's out node to a node that is neither S1 nor an
  /// aux node is a forward edge, so its flow is not negative.
  lemma {:induction false} OutEdgesNonNegative(es: seq<seq<Edge>>, n: nat, b: nat, d: nat)
    requires Linked(es) && EdgesGood(n, es) && |es| == NodeCount(n) && b < n
    requires d != S1Node(n) && !IsAuxNode(n, d)
    ensures FlowTo(es[OutNode(b)], d) >= 0
  {
    var u := OutNode(b);
    assert u < 3 * n && u % 3 == 1 && IsAuxNode(n, u + 1);
    forall i | 0 <= i < |es[u]| && es[u][i].dst == d
      ensures es[u][i].flow >= 0
    {
      ForwardFlowNonNegative(es, u, i);
    }
    FlowToNonNegative(es[u], d);
  }

  /// The count read for a block without a self-edge is not negative.
  lemma {:induction false} BlockFlowNonNegative(es: seq<seq<Edge>>, n: nat, b: nat)
    requires Linked(es) && EdgesGood(n, es) && |es| == NodeCount(n) && b < n
    ensures BlockFlow(es, n, b, false) >= 0
  {
    var adj := Adjacent(es[OutNode(b)]);
    NoFlowOutToS1(es, n, b);
    forall k | 0 <= k < |adj| && !IsAuxNode(n, adj[k])
      ensures FlowTo(es[OutNode(b)], adj[k]) >= 0
    {
      OutEdgesNonNegative(es, n, b, adj[k]);
    }
    AdjacentFlowNonNegative(es[OutNode(b)], adj, n, false);
  }

  /// The count read for a jump is not negative.
  lemma {:induction false} JumpFlowNonNegative(es: seq<seq<Edge>>, n: nat, jmp: FlowJump)
    requires Linked(es) && EdgesGood(n, es) && |es| == NodeCount(n) && jmp.source < n && jmp.target < n
    ensures JumpFlow(es, jmp) >= 0
  {
    if jmp.source != jmp.target {
      assert InNode(jmp.target) % 3 == 0;
      OutEdgesNonNegative(es, n, jmp.source, InNode(jmp.target));
    }
  }

  /// Whatever flow the solver leaves on the network initializeNetwork built
  /// (any flow on the same edges that keeps the edge pairs consistent),
  /// extractWeights reads a non-negative count for every jump and for every
  /// block without a self-edge.
  lemma {:induction false} ExtractedFlowsNonNegative(blocks: seq<FlowBlock>, jumps: seq<FlowJump>, entry: nat, es: seq<seq<Edge>>)
    requires GraphOk(blocks, jumps, entry)
    requires Linked(es) && SameShape(Build(EmptyLists(NodeCount(|blocks|)), NetworkRequests(blocks, jumps)), es)
    ensures forall b :: 0 <= b < |blocks| ==> BlockFlow(es, |blocks|, b, false) >= 0
    ensures forall j :: 0 <= j < |jumps| ==> JumpFlow(es, jumps[j]) >= 0
  {
    var n := |blocks|;
    var e0 := EmptyLists(NodeCount(n));
    NetworkRequestsOk(blocks, jumps, entry);
    BuildGood(n, e0, NetworkRequests(blocks, jumps));
    ShapeGood(n, Build(e0, NetworkRequests(blocks, jumps)), es);
    forall b | 0 <= b < n ensures BlockFlow(es, n, b, false) >= 0 {
      BlockFlowNonNegative(es, n, b);
    }
    forall j | 0 <= j < |jumps| ensures JumpFlow(es, jumps[j]) >= 0 {
      JumpFlowNonNegative(es, n, jumps[j]);
    }
  }
}
