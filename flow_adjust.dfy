// FlowAdjuster: the post-processing of an inferred flow (joining isolated
// components to the entry, then rebalancing dangling subgraphs).
module FlowAdjust {
  import opened FlowGraph
  import opened FlowPaths
  import opened FlowJoin
  import opened FlowDangling
  import opened FlowSubgraph
  import opened FlowVerify
  import opened FlowPush

  /// What rebalancing leaves untouched: the jump ends, every block but its
  /// count, and the count of every non-dangling block; non-negative flows
  /// stay non-negative.
  ghost predicate CountsAdjusted(B0: seq<FlowBlock>, J0: seq<FlowJump>, B: seq<FlowBlock>, J: seq<FlowJump>)
  {
    SameEnds(J0, J) && |B| == |B0| &&
    (forall v :: 0 <= v < |B| ==> B[v] == B0[v].(flow := B[v].flow)) &&
    (forall v :: 0 <= v < |B| && !B0[v].dangling ==> B[v] == B0[v]) &&
    (NonNegative(B0, J0) ==> NonNegative(B, J))
  }

  /// Rebalancing one dangling subgraph keeps what CountsAdjusted promises:
  /// the blocks it may recount are `src`'s inner blocks, which are dangling.
  lemma {:induction false} AdjustStep(B0: seq<FlowBlock>, J0: seq<FlowJump>, B1: seq<FlowBlock>, J1: seq<FlowJump>,
                                      B2: seq<FlowBlock>, J2: seq<FlowJump>, src: nat, dst: nat, succs: seq<nat>, order: seq<nat>)
    requires CountsAdjusted(B0, J0, B1, J1)
    requires DanglingSubgraph(B1, J1, src, dst, succs)
    requires forall v :: v in order <==> v == src || v in succs
    requires RebalanceInv(B1, J1, B2, J2, src, order, |order|)
    ensures CountsAdjusted(B0, J0, B2, J2)
  {
    assert order[..|order|] == order;
    forall v | 0 <= v < |B2| && !B0[v].dangling ensures B2[v] == B0[v] {
      assert !B1[v].dangling;
      assert v !in succs by {
        forall k | 0 <= k < |succs| ensures succs[k] != v {
        }
      }
    }
  }

  /// rebalanceDanglingSubgraphs: from every non-dangling block with positive
  /// count, in index order, find a dangling subgraph, check it is acyclic
  /// and rebalance it; a block where either step fails is skipped.
  method RebalanceDanglingSubgraphs(f: FlowFunction)
    requires f.Valid() && NonNegative(f.blocks, f.jumps)
    modifies f
    ensures f.Valid() && f.entry == old(f.entry)
    ensures CountsAdjusted(old(f.blocks), old(f.jumps), f.blocks, f.jumps)
  {
    ghost var B0, J0 := f.blocks, f.jumps;
    var i := 0;
    while i < |f.blocks|
      invariant f.Valid() && f.entry == old(f.entry)
      invariant CountsAdjusted(B0, J0, f.blocks, f.jumps)
    {
      if !f.blocks[i].dangling && f.blocks[i].flow != 0 {
        var found, dst, succs := FindDanglingSubgraph(f.blocks, f.jumps, i);
        if found {
          var acyclic, order := IsAcyclicSubgraph(f.blocks, f.jumps, i, dst, succs);
          if acyclic {
            ghost var B1, J1 := f.blocks, f.jumps;
            RebalanceDanglingSubgraph(f, i, order);
            AdjustStep(B0, J0, B1, J1, f.blocks, f.jumps, i, dst, succs, order);
          }
        }
      }
      i := i + 1;
    }
  }

  /// FlowAdjuster::run: join the isolated components, then rebalance the
  /// dangling subgraphs when asked to. Jump ends never change, block flows
  /// and jump flows stay non-negative, and when every isolated component
  /// could be joined and no rebalancing was asked for, every block with
  /// positive flow is reachable from the entry. Without rebalancing, a
  /// balanced flow stays balanced, so that a balanced input leaves Run
  /// accepted by verifyWeights whenever every component could be joined.
  method Run(f: FlowFunction, rebalanceDangling: bool) returns (complete: bool)
    requires f.Valid() && NonNegative(f.blocks, f.jumps)
    modifies f
    ensures f.Valid() && f.entry == old(f.entry)
    ensures SameEnds(old(f.jumps), f.jumps) && NonNegative(f.blocks, f.jumps)
    ensures complete && !rebalanceDangling ==>
      forall b :: 0 <= b < |f.blocks| && f.blocks[b].flow > 0 ==> Reaches(f.jumps, f.entry, b)
    ensures !rebalanceDangling && IsEntry(old(f.jumps), f.entry) ==>
      (Balanced(f.blocks, f.jumps) <==> Balanced(old(f.blocks), old(f.jumps)))
    ensures complete && !rebalanceDangling && IsEntry(old(f.jumps), f.entry) && Balanced(old(f.blocks), old(f.jumps)) ==>
      WeightsOk(f.blocks, f.jumps, f.entry)
    ensures AllJoinable(old(f.blocks), old(f.jumps), f.entry) ==> complete
  {
    ghost var B0, J0 := f.blocks, f.jumps;
    complete := JoinIsolatedComponents(f);
    GrownNonNegative(B0, J0, f.blocks, f.jumps);
    assert complete && IsEntry(J0, f.entry) && Balanced(B0, J0) ==> WeightsOk(f.blocks, f.jumps, f.entry);
    if rebalanceDangling {
      RebalanceDanglingSubgraphs(f);
    }
  }

  /// Growing flows keeps them non-negative and the jump ends fixed.
  lemma {:induction false} GrownNonNegative(B0: seq<FlowBlock>, J0: seq<FlowJump>, B: seq<FlowBlock>, J: seq<FlowJump>)
    requires NonNegative(B0, J0) && JumpsGrown(J0, J) && BlocksGrown(B0, B)
    ensures NonNegative(B, J) && SameEnds(J0, J)
  {
  }
}
