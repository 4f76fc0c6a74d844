// The flow network that profile inference solves, and reading the solution
// back. Block b becomes three nodes: in = 3b, out = 3b+1 and aux = 3b+2; for
// N blocks, S = 3N, T = 3N+1, and the solver runs from S1 = 3N+2 to T1 = 3N+3.
module FlowNetwork {
  import opened Util
  import opened FlowGraph
  import opened MinCostFlowSolver

  /// One call of addEdge: an edge of the given capacity and cost.
  datatype Request = Request(src: nat, dst: nat, capacity: int, cost: int)

  function InNode(b: nat): nat { 3 * b }
  function OutNode(b: nat): nat { 3 * b + 1 }
  function AuxNode(b: nat): nat { 3 * b + 2 }
  function SNode(n: nat): nat { 3 * n }
  function TNode(n: nat): nat { 3 * n + 1 }
  function S1Node(n: nat): nat { 3 * n + 2 }
  function T1Node(n: nat): nat { 3 * n + 3 }

  /// The node count of the network of `n` blocks.
  function NodeCount(n: nat): nat { 3 * n + 4 }

  /// The network after addEdge for request `r` (unchanged for an out-of-range request).
  function WithRequest(es: seq<seq<Edge>>, r: Request): seq<seq<Edge>>
  {
    if r.src < |es| && r.dst < |es| then WithEdge(es, r.src, r.dst, r.capacity, r.cost) else es
  }

  /// The network after the requests, in order.
  function Build(es: seq<seq<Edge>>, reqs: seq<Request>): (r: seq<seq<Edge>>)
    ensures |r| == |es|
  {
    if reqs == [] then es else WithRequest(Build(es, reqs[..|reqs| - 1]), reqs[|reqs| - 1])
  }

  lemma {:induction false} BuildSnoc(es: seq<seq<Edge>>, reqs: seq<Request>, r: Request)
    ensures Build(es, reqs + [r]) == WithRequest(Build(es, reqs), r)
  {
    assert (reqs + [r])[..|reqs|] == reqs;
  }

  /// Applying two request lists one after the other applies their concatenation.
  lemma {:induction false} BuildAppend(es: seq<seq<Edge>>, a: seq<Request>, b: seq<Request>)
    ensures Build(es, a + b) == Build(Build(es, a), b)
    decreases |b|
  {
    if b != [] {
      var init, last := b[..|b| - 1], b[|b| - 1];
      BuildAppend(es, a, init);
      assert a + b == (a + init) + [last];
      BuildSnoc(es, a + init, last);
    } else {
      assert a + b == a;
    }
  }

  /// Costs (increase, decrease) of the two aux-edge pairs of a block.
  function AuxCosts(blk: FlowBlock, isEntry: bool): (int, int)
  {
    var inc := if blk.dangling then 0 else if isEntry then AUX_COST_INC_ENTRY else AUX_COST_INC;
    var dec := if blk.hasSelfEdge || blk.dangling then 0 else if isEntry then AUX_COST_DEC_ENTRY else AUX_COST_DEC;
    (inc, dec)
  }

  /// The weight edges of a block with samples: S1 -> out and in -> T1.
  function WeightRequests(n: nat, b: nat, blk: FlowBlock): seq<Request>
  {
    if blk.weight > 0 then [Request(S1Node(n), OutNode(b), blk.weight, 0), Request(InNode(b), T1Node(n), blk.weight, 0)]
    else []
  }

  /// The edge from S into an entry block, or from an exit block to T.
  function EndRequests(n: nat, b: nat, isEntry: bool, isExit: bool): seq<Request>
  {
    if isEntry then [Request(SNode(n), InNode(b), INF, 0)]
    else if isExit then [Request(OutNode(b), TNode(n), INF, 0)] else []
  }

  /// The four aux-edge requests of a block: in -> aux and aux -> out at the
  /// increase cost, out -> aux and aux -> in at the decrease cost.
  function AuxRequests(b: nat, inc: int, dec: int): seq<Request>
  {
    [Request(InNode(b), AuxNode(b), INF, inc), Request(AuxNode(b), OutNode(b), INF, inc),
     Request(OutNode(b), AuxNode(b), INF, dec), Request(AuxNode(b), InNode(b), INF, dec)]
  }

  /// The addEdge calls for block `b` of `n`.
  function BlockRequests(n: nat, b: nat, blk: FlowBlock, isEntry: bool, isExit: bool): seq<Request>
  {
    var (inc, dec) := AuxCosts(blk, isEntry);
    WeightRequests(n, b, blk) + EndRequests(n, b, isEntry, isExit) + AuxRequests(b, inc, dec)
  }

  /// The addEdge calls for blocks `0..upto`.
  function BlocksRequests(blocks: seq<FlowBlock>, jumps: seq<FlowJump>, upto: nat): seq<Request>
    requires upto <= |blocks|
  {
    if upto == 0 then []
    else BlocksRequests(blocks, jumps, upto - 1) +
         BlockRequests(|blocks|, upto - 1, blocks[upto - 1], IsEntry(jumps, upto - 1), IsExit(jumps, upto - 1))
  }

  /// The addEdge call for a jump: none for a self-jump.
  function JumpRequests(jmp: FlowJump): seq<Request>
  {
    if jmp.source != jmp.target then
      [Request(OutNode(jmp.source), InNode(jmp.target), INF, if jmp.isUnlikely then AUX_COST_UNLIKELY else 0)]
    else []
  }

  /// The addEdge calls for jumps `0..upto`.
  function JumpsRequests(jumps: seq<FlowJump>, upto: nat): seq<Request>
    requires upto <= |jumps|
  {
    if upto == 0 then [] else JumpsRequests(jumps, upto - 1) + JumpRequests(jumps[upto - 1])
  }

  /// Every addEdge call of initializeNetwork, in order; the last closes the circulation T -> S.
  function NetworkRequests(blocks: seq<FlowBlock>, jumps: seq<FlowJump>): seq<Request>
  {
    BlocksRequests(blocks, jumps, |blocks|) + JumpsRequests(jumps, |jumps|) +
    [Request(TNode(|blocks|), SNode(|blocks|), INF, 0)]
  }

  /// The blocks after raising a zero entry weight to 1.
  function RaisedEntry(blocks: seq<FlowBlock>, entry: nat): (r: seq<FlowBlock>)
    requires entry < |blocks|
  {
    if blocks[entry].weight == 0 then blocks[entry := blocks[entry].(weight := 1)] else blocks
  }

  // ----- Shape of the requests -----

  /// Edge-pair facts of the layout: only S1 and the block's own aux node
  /// send into an out node; no out node sends to S1, and no out node sends
  /// to its own in node (self-jumps get no edge).
  ghost predicate GoodPair(n: nat, a: nat, b: nat)
  {
    (b < 3 * n && b % 3 == 1 ==> a == S1Node(n) || a == b + 1) &&
    (a < 3 * n && a % 3 == 1 ==> b != S1Node(n) && b + 1 != a)
  }

  /// A request addEdge accepts (nodes in range and distinct, positive
  /// capacity), with a non-negative cost and the layout's edge-pair facts.
  ghost predicate RequestOk(n: nat, r: Request)
  {
    r.src < NodeCount(n) && r.dst < NodeCount(n) && r.src != r.dst &&
    r.capacity > 0 && r.cost >= 0 && GoodPair(n, r.src, r.dst)
  }

  ghost predicate AllOk(n: nat, reqs: seq<Request>)
  {
    forall r :: r in reqs ==> RequestOk(n, r)
  }

  lemma {:induction false} AllOkAppend(n: nat, a: seq<Request>, b: seq<Request>)
    requires AllOk(n, a) && AllOk(n, b)
    ensures AllOk(n, a + b)
  {
  }

  lemma {:induction false} BlockRequestsOk(n: nat, b: nat, blk: FlowBlock, isEntry: bool, isExit: bool)
    requires b < n
    ensures AllOk(n, BlockRequests(n, b, blk, isEntry, isExit))
  {
    var (inc, dec) := AuxCosts(blk, isEntry);
    WeightRequestsOk(n, b, blk);
    EndRequestsOk(n, b, isEntry, isExit);
    AuxRequestsOk(n, b, inc, dec);
    AllOkAppend(n, WeightRequests(n, b, blk), EndRequests(n, b, isEntry, isExit));
    AllOkAppend(n, WeightRequests(n, b, blk) + EndRequests(n, b, isEntry, isExit), AuxRequests(b, inc, dec));
  }

  /// Where a block's three nodes fall modulo 3.
  lemma NodeResidues(b: nat)
    ensures InNode(b) % 3 == 0 && OutNode(b) % 3 == 1 && AuxNode(b) % 3 == 2
  {
  }

  lemma {:induction false} WeightRequestsOk(n: nat, b: nat, blk: FlowBlock)
    requires b < n
    ensures AllOk(n, WeightRequests(n, b, blk))
  {
    NodeResidues(b);
  }

  lemma {:induction false} EndRequestsOk(n: nat, b: nat, isEntry: bool, isExit: bool)
    requires b < n
    ensures AllOk(n, EndRequests(n, b, isEntry, isExit))
  {
    NodeResidues(b);
  }

  lemma {:induction false} AuxRequestsOk(n: nat, b: nat, inc: int, dec: int)
    requires b < n && 0 <= inc && 0 <= dec
    ensures AllOk(n, AuxRequests(b, inc, dec))
  {
    NodeResidues(b);
  }

  lemma {:induction false} BlocksRequestsOk(blocks: seq<FlowBlock>, jumps: seq<FlowJump>, upto: nat)
    requires upto <= |blocks|
    ensures AllOk(|blocks|, BlocksRequests(blocks, jumps, upto))
    decreases upto
  {
    if upto > 0 {
      var b := upto - 1;
      var prev := BlocksRequests(blocks, jumps, b);
      var cur := BlockRequests(|blocks|, b, blocks[b], IsEntry(jumps, b), IsExit(jumps, b));
      assert BlocksRequests(blocks, jumps, upto) == prev + cur;
      BlocksRequestsOk(blocks, jumps, b);
      BlockRequestsOk(|blocks|, b, blocks[b], IsEntry(jumps, b), IsExit(jumps, b));
      AllOkAppend(|blocks|, prev, cur);
    }
  }

  lemma {:induction false} JumpsRequestsOk(n: nat, jumps: seq<FlowJump>, upto: nat)
    requires upto <= |jumps|
    requires forall j :: 0 <= j < |jumps| ==> jumps[j].source < n && jumps[j].target < n
    ensures AllOk(n, JumpsRequests(jumps, upto))
    decreases upto
  {
    if upto > 0 {
      JumpsRequestsOk(n, jumps, upto - 1);
      AllOkAppend(n, JumpsRequests(jumps, upto - 1), JumpRequests(jumps[upto - 1]));
    }
  }

  /// Every addEdge call of initializeNetwork meets addEdge's requirements
  /// (positive capacity, distinct ends in range) and has a non-negative cost.
  lemma {:induction false} NetworkRequestsOk(blocks: seq<FlowBlock>, jumps: seq<FlowJump>, entry: nat)
    requires GraphOk(blocks, jumps, entry)
    ensures AllOk(|blocks|, NetworkRequests(blocks, jumps))
  {
    var n := |blocks|;
    BlocksRequestsOk(blocks, jumps, n);
    JumpsRequestsOk(n, jumps, |jumps|);
    AllOkAppend(n, BlocksRequests(blocks, jumps, n), JumpsRequests(jumps, |jumps|));
    AllOkAppend(n, BlocksRequests(blocks, jumps, n) + JumpsRequests(jumps, |jumps|), [Request(TNode(n), SNode(n), INF, 0)]);
  }

  /// What the aux-edge costs are for: changing a count never pays (no
  /// negative cost), a dangling block's count changes for free, lowering a
  /// count costs at least as much as raising it unless a self-edge can take
  /// the difference (then lowering is free), and changing a non-dangling
  /// entry's count costs at least as much as changing any other block's.
  lemma {:induction false} AuxCostsPenalise(blk: FlowBlock, isEntry: bool, other: FlowBlock)
    ensures var (inc, dec) := AuxCosts(blk, isEntry);
      var (otherInc, otherDec) := AuxCosts(other, false);
      0 <= inc && 0 <= dec &&
      (blk.dangling ==> inc == 0 && dec == 0) &&
      (blk.hasSelfEdge ==> dec == 0) &&
      (!blk.hasSelfEdge ==> inc <= dec) &&
      (isEntry && !blk.dangling ==> otherInc <= inc && (blk.hasSelfEdge || otherDec <= dec))
  {
  }

  /// A block with a positive weight gets S1 -> out and in -> T1 edges of
  /// capacity equal to the weight.
  lemma {:induction false} WeightEdges(blocks: seq<FlowBlock>, jumps: seq<FlowJump>, upto: nat, b: nat)
    requires b < upto <= |blocks| && blocks[b].weight > 0
    ensures Request(S1Node(|blocks|), OutNode(b), blocks[b].weight, 0) in BlocksRequests(blocks, jumps, upto)
    ensures Request(InNode(b), T1Node(|blocks|), blocks[b].weight, 0) in BlocksRequests(blocks, jumps, upto)
    decreases upto
  {
    var n := |blocks|;
    var prev := BlocksRequests(blocks, jumps, upto - 1);
    var own := BlockRequests(n, upto - 1, blocks[upto - 1], IsEntry(jumps, upto - 1), IsExit(jumps, upto - 1));
    assert BlocksRequests(blocks, jumps, upto) == prev + own;
    if b < upto - 1 {
      WeightEdges(blocks, jumps, upto - 1, b);
    } else {
      BlockWeightEdges(n, b, blocks[b], IsEntry(jumps, b), IsExit(jumps, b));
    }
  }

  /// The weight edges among one block's requests.
  lemma {:induction false} BlockWeightEdges(n: nat, b: nat, blk: FlowBlock, isEntry: bool, isExit: bool)
    requires blk.weight > 0
    ensures Request(S1Node(n), OutNode(b), blk.weight, 0) in BlockRequests(n, b, blk, isEntry, isExit)
    ensures Request(InNode(b), T1Node(n), blk.weight, 0) in BlockRequests(n, b, blk, isEntry, isExit)
  {
    var (inc, dec) := AuxCosts(blk, isEntry);
    var weights := WeightRequests(n, b, blk);
    assert BlockRequests(n, b, blk, isEntry, isExit) == weights + EndRequests(n, b, isEntry, isExit) + AuxRequests(b, inc, dec);
    assert weights[0] == Request(S1Node(n), OutNode(b), blk.weight, 0);
    assert weights[1] == Request(InNode(b), T1Node(n), blk.weight, 0);
  }

  /// A jump between two different blocks gets an out -> in edge of infinite
  /// capacity, costing 2^20 per unit when the jump is unlikely and 0 otherwise.
  lemma {:induction false} JumpEdge(jumps: seq<FlowJump>, upto: nat, j: nat)
    requires j < upto <= |jumps| && jumps[j].source != jumps[j].target
    ensures Request(OutNode(jumps[j].source), InNode(jumps[j].target), INF,
                    if jumps[j].isUnlikely then 0x10_0000 else 0) in JumpsRequests(jumps, upto)
    decreases upto
  {
    if j < upto - 1 {
      JumpEdge(jumps, upto - 1, j);
    }
  }

  // ----- Shape of the built network -----

  /// Every edge of list `u` is a forward edge (positive capacity) of a
  /// well-shaped pair `u -> dst`, or a reverse edge of a pair `dst -> u`.
  ghost predicate EdgesGood(n: nat, es: seq<seq<Edge>>)
  {
    forall u, i :: 0 <= u < |es| && 0 <= i < |es[u]| ==>
      (es[u][i].capacity > 0 ==> GoodPair(n, u, es[u][i].dst)) &&
      (es[u][i].capacity <= 0 ==> GoodPair(n, es[u][i].dst, u))
  }

  lemma {:induction false} WithRequestGood(n: nat, es: seq<seq<Edge>>, r: Request)
    requires EdgesGood(n, es) && RequestOk(n, r) && r.src < |es| && r.dst < |es|
    ensures EdgesGood(n, WithRequest(es, r)) && |WithRequest(es, r)| == |es|
  {
    var es': seq<seq<Edge>> := WithRequest(es, r);
    forall u, i | 0 <= u < |es'| && 0 <= i < |es'[u]|
      ensures (es'[u][i].capacity > 0 ==> GoodPair(n, u, es'[u][i].dst)) &&
              (es'[u][i].capacity <= 0 ==> GoodPair(n, es'[u][i].dst, u))
    {
      if (u != r.src && u != r.dst) || i < |es[u]| {
        assert es'[u][i] == es[u][i];
      }
    }
  }

  lemma {:induction false} BuildGood(n: nat, es: seq<seq<Edge>>, reqs: seq<Request>)
    requires EdgesGood(n, es) && AllOk(n, reqs) && |es| == NodeCount(n)
    ensures EdgesGood(n, Build(es, reqs)) && |Build(es, reqs)| == |es|
    decreases |reqs|
  {
    if reqs != [] {
      var init := reqs[..|reqs| - 1];
      assert AllOk(n, init);
      BuildGood(n, es, init);
      WithRequestGood(n, Build(es, init), reqs[|reqs| - 1]);
    }
  }

  lemma {:induction false} ShapeGood(n: nat, a: seq<seq<Edge>>, b: seq<seq<Edge>>)
    requires EdgesGood(n, a) && SameShape(a, b)
    ensures EdgesGood(n, b)
  {
    forall u, i | 0 <= u < |b| && 0 <= i < |b[u]|
      ensures (b[u][i].capacity > 0 ==> GoodPair(n, u, b[u][i].dst)) &&
              (b[u][i].capacity <= 0 ==> GoodPair(n, b[u][i].dst, u))
    {
      assert a[u][i].capacity == b[u][i].capacity && a[u][i].dst == b[u][i].dst;
    }
  }

  // ----- initializeNetwork -----

  /// Builds the network of a function: three nodes per block, dummy S, T, S1
  /// and T1, and the edges of NetworkRequests. A zero entry weight is first
  /// raised to 1.
  method InitializeNetwork(f: FlowFunction) returns (network: MinCostFlow)
    requires f.Valid() && |f.blocks| > 1
    requires forall b :: 0 <= b < |f.blocks| ==>
      var blk := RaisedEntry(f.blocks, f.entry)[b];
      !blk.dangling || blk.weight == 0 || IsEntry(f.jumps, b)
    requires forall b :: 0 <= b < |f.blocks| ==> !(IsEntry(f.jumps, b) && IsExit(f.jumps, b))
    modifies f
    ensures f.jumps == old(f.jumps) && f.entry == old(f.entry) && f.blocks == RaisedEntry(old(f.blocks), f.entry)
    ensures f.Valid()
    ensures fresh(network) && network.Valid()
    ensures network.source == S1Node(|f.blocks|) && network.target == T1Node(|f.blocks|)
    ensures network.edges == Build(EmptyLists(NodeCount(|f.blocks|)), NetworkRequests(f.blocks, f.jumps))
  {
    if f.blocks[f.entry].weight == 0 {
      f.blocks := f.blocks[f.entry := f.blocks[f.entry].(weight := 1)];
    }
    network := BuildNetwork(f.blocks, f.jumps);
  }

  /// The network part of initializeNetwork, once the entry weight is raised.
  method BuildNetwork(blocks: seq<FlowBlock>, jumps: seq<FlowJump>) returns (network: MinCostFlow)
    requires forall j :: 0 <= j < |jumps| ==> jumps[j].source < |blocks| && jumps[j].target < |blocks|
    ensures fresh(network) && network.Valid()
    ensures network.source == S1Node(|blocks|) && network.target == T1Node(|blocks|)
    ensures network.edges == Build(EmptyLists(NodeCount(|blocks|)), NetworkRequests(blocks, jumps))
  {
    var n := |blocks|;
    network := new MinCostFlow.Initialize(NodeCount(n), S1Node(n), T1Node(n));
    ghost var e0 := network.edges;
    AddAllBlockEdges(network, blocks, jumps);
    ghost var e1 := network.edges;
    AddAllJumpEdges(network, n, jumps);
    ghost var e2 := network.edges;
    network.AddInfEdge(TNode(n), SNode(n), 0);
    NetworkBuilt(blocks, jumps, e0, e1, e2, network.edges);
  }

  /// The three phases of initializeNetwork build the network of NetworkRequests.
  lemma {:induction false} NetworkBuilt(blocks: seq<FlowBlock>, jumps: seq<FlowJump>,
                                        e0: seq<seq<Edge>>, e1: seq<seq<Edge>>, e2: seq<seq<Edge>>, e3: seq<seq<Edge>>)
    requires e0 == EmptyLists(NodeCount(|blocks|))
    requires e1 == Build(e0, BlocksRequests(blocks, jumps, |blocks|))
    requires e2 == Build(e1, JumpsRequests(jumps, |jumps|))
    requires e3 == WithEdge(e2, TNode(|blocks|), SNode(|blocks|), INF, 0)
    ensures e3 == Build(EmptyLists(NodeCount(|blocks|)), NetworkRequests(blocks, jumps))
  {
    var bReqs, jReqs := BlocksRequests(blocks, jumps, |blocks|), JumpsRequests(jumps, |jumps|);
    var close := Request(TNode(|blocks|), SNode(|blocks|), INF, 0);
    BuildAppend(e0, bReqs, jReqs);
    BuildSnoc(e0, bReqs + jReqs, close);
  }

  /// The addEdge calls of initializeNetwork's loop over the blocks.
  method AddAllBlockEdges(network: MinCostFlow, blocks: seq<FlowBlock>, jumps: seq<FlowJump>)
    requires network.Valid() && |network.edges| == NodeCount(|blocks|)
    modifies network
    ensures network.Valid() && network.source == old(network.source) && network.target == old(network.target)
    ensures network.edges == Build(old(network.edges), BlocksRequests(blocks, jumps, |blocks|))
  {
    var n := |blocks|;
    ghost var e0 := network.edges;
    var b := 0;
    while b < n
      invariant 0 <= b <= n
      invariant network.Valid() && |network.edges| == NodeCount(n)
      invariant network.source == old(network.source) && network.target == old(network.target)
      invariant network.edges == Build(e0, BlocksRequests(blocks, jumps, b))
    {
      AddBlockAt(network, blocks, jumps, b, e0);
      b := b + 1;
    }
  }

  /// One pass of the loop over the blocks: block `b`'s addEdge calls
  /// extend the calls for the blocks before it.
  method AddBlockAt(network: MinCostFlow, blocks: seq<FlowBlock>, jumps: seq<FlowJump>, b: nat, ghost e0: seq<seq<Edge>>)
    requires network.Valid() && b < |blocks| && |network.edges| == NodeCount(|blocks|)
    requires network.edges == Build(e0, BlocksRequests(blocks, jumps, b))
    modifies network
    ensures network.Valid() && |network.edges| == NodeCount(|blocks|)
    ensures network.source == old(network.source) && network.target == old(network.target)
    ensures network.edges == Build(e0, BlocksRequests(blocks, jumps, b + 1))
  {
    var isEntry, isExit := IsEntry(jumps, b), IsExit(jumps, b);
    ghost var before := network.edges;
    AddBlockEdges(network, |blocks|, b, blocks[b], isEntry, isExit);
    BlocksStep(blocks, jumps, b, e0, before, network.edges);
  }

  lemma {:induction false} BlocksStep(blocks: seq<FlowBlock>, jumps: seq<FlowJump>, b: nat,
                                      e0: seq<seq<Edge>>, before: seq<seq<Edge>>, after: seq<seq<Edge>>)
    requires b < |blocks| && before == Build(e0, BlocksRequests(blocks, jumps, b))
    requires after == Build(before, BlockRequests(|blocks|, b, blocks[b], IsEntry(jumps, b), IsExit(jumps, b)))
    ensures after == Build(e0, BlocksRequests(blocks, jumps, b + 1))
  {
    BuildAppend(e0, BlocksRequests(blocks, jumps, b), BlockRequests(|blocks|, b, blocks[b], IsEntry(jumps, b), IsExit(jumps, b)));
  }

  /// The addEdge calls of initializeNetwork's loop over the jumps.
  method AddAllJumpEdges(network: MinCostFlow, n: nat, jumps: seq<FlowJump>)
    requires network.Valid() && |network.edges| == NodeCount(n)
    requires forall j :: 0 <= j < |jumps| ==> jumps[j].source < n && jumps[j].target < n
    modifies network
    ensures network.Valid() && network.source == old(network.source) && network.target == old(network.target)
    ensures network.edges == Build(old(network.edges), JumpsRequests(jumps, |jumps|))
  {
    ghost var e0 := network.edges;
    var j := 0;
    while j < |jumps|
      invariant 0 <= j <= |jumps|
      invariant network.Valid() && |network.edges| == NodeCount(n)
      invariant network.source == old(network.source) && network.target == old(network.target)
      invariant network.edges == Build(e0, JumpsRequests(jumps, j))
    {
      AddJumpEdge(network, n, jumps[j]);
      BuildAppend(e0, JumpsRequests(jumps, j), JumpRequests(jumps[j]));
      j := j + 1;
    }
  }

  /// The addEdge call for one jump: out of the source block into the
  /// target block, none for a self-jump.
  method AddJumpEdge(network: MinCostFlow, n: nat, jmp: FlowJump)
    requires network.Valid() && |network.edges| == NodeCount(n) && jmp.source < n && jmp.target < n
    modifies network
    ensures network.Valid() && network.source == old(network.source) && network.target == old(network.target)
    ensures network.edges == Build(old(network.edges), JumpRequests(jmp))
  {
    var src, dst := jmp.source, jmp.target;
    if src != dst {
      var srcOut, dstIn := 3 * src + 1, 3 * dst;
      var cost := if jmp.isUnlikely then AUX_COST_UNLIKELY else 0;
      Build1(network.edges, Request(srcOut, dstIn, INF, cost));
      network.AddInfEdge(srcOut, dstIn, cost);
    }
  }

  /// Building a block's requests builds its three groups one after the other.
  lemma {:induction false} BuildBlock(es: seq<seq<Edge>>, n: nat, b: nat, blk: FlowBlock, isEntry: bool, isExit: bool)
    ensures var (inc, dec) := AuxCosts(blk, isEntry);
      Build(es, BlockRequests(n, b, blk, isEntry, isExit)) ==
      Build(Build(Build(es, WeightRequests(n, b, blk)), EndRequests(n, b, isEntry, isExit)), AuxRequests(b, inc, dec))
  {
    var (inc, dec) := AuxCosts(blk, isEntry);
    var w, e, a := WeightRequests(n, b, blk), EndRequests(n, b, isEntry, isExit), AuxRequests(b, inc, dec);
    BuildAppend(es, w + e, a);
    BuildAppend(es, w, e);
  }

  /// The addEdge calls of initializeNetwork for one block: the weight edges,
  /// the edge from S or to T, and the four aux edges.
  method AddBlockEdges(network: MinCostFlow, n: nat, b: nat, blk: FlowBlock, isEntry: bool, isExit: bool)
    requires network.Valid() && b < n && |network.edges| == NodeCount(n)
    modifies network
    ensures network.Valid() && network.source == old(network.source) && network.target == old(network.target)
    ensures network.edges == Build(old(network.edges), BlockRequests(n, b, blk, isEntry, isExit))
  {
    BuildBlock(network.edges, n, b, blk, isEntry, isExit);
    AddWeightEdges(network, n, b, blk);
    AddEndEdge(network, n, b, isEntry, isExit);
    var auxCostInc, auxCostDec := AUX_COST_INC, AUX_COST_DEC;
    if blk.dangling {
      auxCostInc, auxCostDec := 0, 0;
    }
    if isEntry && !blk.dangling {
      auxCostDec, auxCostInc := AUX_COST_DEC_ENTRY, AUX_COST_INC_ENTRY;
    }
    if blk.hasSelfEdge {
      auxCostDec := 0;
    }
    assert (auxCostInc, auxCostDec) == AuxCosts(blk, isEntry);
    AddAuxEdges(network, b, auxCostInc, auxCostDec);
  }

  /// The weight edges of a block with samples.
  method AddWeightEdges(network: MinCostFlow, n: nat, b: nat, blk: FlowBlock)
    requires network.Valid() && b < n && |network.edges| == NodeCount(n)
    modifies network
    ensures network.Valid() && network.source == old(network.source) && network.target == old(network.target)
    ensures network.edges == Build(old(network.edges), WeightRequests(n, b, blk))
  {
    var s1, t1, bin, bout := 3 * n + 2, 3 * n + 3, 3 * b, 3 * b + 1;
    if blk.weight > 0 {
      Build2(network.edges, Request(s1, bout, blk.weight, 0), Request(bin, t1, blk.weight, 0));
      network.AddEdge(s1, bout, blk.weight, 0);
      network.AddEdge(bin, t1, blk.weight, 0);
    }
  }

  /// The edge from S into an entry block, or from an exit block to T.
  method AddEndEdge(network: MinCostFlow, n: nat, b: nat, isEntry: bool, isExit: bool)
    requires network.Valid() && b < n && |network.edges| == NodeCount(n)
    modifies network
    ensures network.Valid() && network.source == old(network.source) && network.target == old(network.target)
    ensures network.edges == Build(old(network.edges), EndRequests(n, b, isEntry, isExit))
  {
    var s, t, bin, bout := 3 * n, 3 * n + 1, 3 * b, 3 * b + 1;
    if isEntry {
      Build1(network.edges, Request(s, bin, INF, 0));
      network.AddInfEdge(s, bin, 0);
    } else if isExit {
      Build1(network.edges, Request(bout, t, INF, 0));
      network.AddInfEdge(bout, t, 0);
    }
  }

  lemma {:induction false} Build1(es: seq<seq<Edge>>, r: Request)
    ensures Build(es, [r]) == WithRequest(es, r)
  {
    assert [r][..0] == [];
  }

  lemma {:induction false} Build2(es: seq<seq<Edge>>, r1: Request, r2: Request)
    ensures Build(es, [r1, r2]) == WithRequest(WithRequest(es, r1), r2)
  {
    BuildSnoc(es, [], r1);
    BuildSnoc(es, [r1], r2);
    assert [r1] + [r2] == [r1, r2];
  }

  lemma {:induction false} Build4(es: seq<seq<Edge>>, r1: Request, r2: Request, r3: Request, r4: Request)
    ensures Build(es, [r1, r2, r3, r4]) == WithRequest(WithRequest(WithRequest(WithRequest(es, r1), r2), r3), r4)
  {
    assert [r1, r2] + [r3, r4] == [r1, r2, r3, r4];
    BuildAppend(es, [r1, r2], [r3, r4]);
    Build2(es, r1, r2);
    Build2(Build(es, [r1, r2]), r3, r4);
  }

  /// The four aux edges of block `b`.
  method AddAuxEdges(network: MinCostFlow, b: nat, inc: int, dec: int)
    requires network.Valid() && AuxNode(b) < |network.edges|
    modifies network
    ensures network.Valid() && network.source == old(network.source) && network.target == old(network.target)
    ensures network.edges == Build(old(network.edges), AuxRequests(b, inc, dec))
  {
    var bin, bout, baux := 3 * b, 3 * b + 1, 3 * b + 2;
    Build4(network.edges, Request(bin, baux, INF, inc), Request(baux, bout, INF, inc),
           Request(bout, baux, INF, dec), Request(baux, bin, INF, dec));
    network.AddInfEdge(bin, baux, inc);
    network.AddInfEdge(baux, bout, inc);
    network.AddInfEdge(bout, baux, dec);
    network.AddInfEdge(baux, bin, dec);
  }
}
