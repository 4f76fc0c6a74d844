// Rebalancing of dangling subgraphs (FlowAdjuster::rebalanceDanglingSubgraphs):
// from a non-dangling block with flow, a breadth-first search collects the
// dangling blocks it reaches up to a single non-dangling block; when that
// subgraph has no cycle, its blocks are visited in topological order, each
// inner block takes the sum of its incoming flows, and each block splits its
// count over its successor jumps, half of what is left to every successor
// but the last.
module FlowDangling {
  import opened FlowGraph
  import opened FlowPaths
  import opened FlowVerify

  // ----- The split of a count over the successor jumps -----

  /// What is left to hand out before successor `k`: each successor before
  /// the last takes half of what is left, rounded down.
  function Remaining(total: int, k: nat): int
  {
    if k == 0 then total else Remaining(total, k - 1) - Remaining(total, k - 1) / 2
  }

  /// The flow that successor jump `k` of `n` receives.
  function Share(total: int, n: nat, k: nat): int
  {
    if k + 1 == n then Remaining(total, k) else Remaining(total, k) / 2
  }

  /// Sum of the first `k` shares.
  function SharesUpTo(total: int, n: nat, k: nat): int
  {
    if k == 0 then 0 else SharesUpTo(total, n, k - 1) + Share(total, n, k - 1)
  }

  /// Before the last successor, the shares handed out plus what is left is the count.
  lemma {:induction false} SharesTelescope(total: int, n: nat, k: nat)
    requires k < n
    ensures SharesUpTo(total, n, k) + Remaining(total, k) == total
  {
    if k > 0 {
      SharesTelescope(total, n, k - 1);
    }
  }

  /// The shares of one or more successors add up to the count.
  lemma {:induction false} SharesSum(total: int, n: nat)
    requires n >= 1
    ensures SharesUpTo(total, n, n) == total
  {
    SharesTelescope(total, n, n - 1);
  }

  /// A count that is not negative is split into shares that are not negative
  /// and never larger than the count.
  lemma {:induction false} SharesBounded(total: int, n: nat, k: nat)
    requires total >= 0
    ensures 0 <= Remaining(total, k) <= total && 0 <= Share(total, n, k) <= total
  {
    if k > 0 {
      SharesBounded(total, n, k - 1);
    }
  }

  // ----- Flows summed over lists of jumps -----

  /// Sum of the flows of the listed jumps.
  function ListFlow(jumps: seq<FlowJump>, js: seq<nat>): int
  {
    if js == [] then 0
    else
      var last := js[|js| - 1];
      ListFlow(jumps, js[..|js| - 1]) + (if last < |jumps| then jumps[last].flow else 0)
  }

  lemma {:induction false} ListFlowPrefix(jumps: seq<FlowJump>, k: nat, js: seq<nat>)
    requires k <= |jumps| && forall i :: 0 <= i < |js| ==> js[i] < k
    ensures ListFlow(jumps[..k], js) == ListFlow(jumps, js)
    decreases |js|
  {
    if js != [] {
      ListFlowPrefix(jumps, k, js[..|js| - 1]);
    }
  }

  /// Summing over the predecessor list of a block gives its in-flow.
  lemma {:induction false} ListFlowIn(jumps: seq<FlowJump>, v: nat)
    ensures ListFlow(jumps, PredJumps(jumps, v)) == InFlow(jumps, v)
    decreases |jumps|
  {
    if jumps != [] {
      var last := |jumps| - 1;
      var init := jumps[..last];
      ListFlowIn(init, v);
      PredJumpsSpec(init, v);
      var p := PredJumps(init, v);
      ListFlowPrefix(jumps, last, p);
      if jumps[last].target == v {
        assert PredJumps(jumps, v) == p + [last];
        assert (p + [last])[..|p|] == p;
      } else {
        assert PredJumps(jumps, v) == p;
      }
    }
  }

  /// Summing over the successor list of a block gives its out-flow.
  lemma {:induction false} ListFlowOut(jumps: seq<FlowJump>, v: nat)
    ensures ListFlow(jumps, SuccJumps(jumps, v)) == OutFlow(jumps, v)
    decreases |jumps|
  {
    if jumps != [] {
      var last := |jumps| - 1;
      var init := jumps[..last];
      ListFlowOut(init, v);
      SuccJumpsSpec(init, v);
      var s := SuccJumps(init, v);
      ListFlowPrefix(jumps, last, s);
      if jumps[last].source == v {
        assert SuccJumps(jumps, v) == s + [last];
        assert (s + [last])[..|s|] == s;
      } else {
        assert SuccJumps(jumps, v) == s;
      }
    }
  }

  /// In-flow of `v` does not see flow changes on jumps that do not enter `v`.
  lemma {:induction false} InFlowUnchanged(a: seq<FlowJump>, b: seq<FlowJump>, v: nat)
    requires SameEnds(a, b)
    requires forall j :: 0 <= j < |a| && a[j].target == v ==> a[j].flow == b[j].flow
    ensures InFlow(a, v) == InFlow(b, v)
    decreases |a|
  {
    if a != [] {
      InFlowUnchanged(a[..|a| - 1], b[..|b| - 1], v);
    }
  }

  /// Out-flow of `v` does not see flow changes on jumps that do not leave `v`.
  lemma {:induction false} OutFlowUnchanged(a: seq<FlowJump>, b: seq<FlowJump>, v: nat)
    requires SameEnds(a, b)
    requires forall j :: 0 <= j < |a| && a[j].source == v ==> a[j].flow == b[j].flow
    ensures OutFlow(a, v) == OutFlow(b, v)
    decreases |a|
  {
    if a != [] {
      OutFlowUnchanged(a[..|a| - 1], b[..|b| - 1], v);
    }
  }

  /// A sum of non-negative jump flows is not negative.
  lemma {:induction false} InFlowNonNegative(jumps: seq<FlowJump>, v: nat)
    requires forall j :: 0 <= j < |jumps| ==> jumps[j].flow >= 0
    ensures InFlow(jumps, v) >= 0
    decreases |jumps|
  {
    if jumps != [] {
      InFlowNonNegative(jumps[..|jumps| - 1], v);
    }
  }

  lemma {:induction false} ListFlowShares(jumps: seq<FlowJump>, js: seq<nat>, total: int, k: nat)
    requires k <= |js|
    requires forall i :: 0 <= i < |js| ==> js[i] < |jumps| && jumps[js[i]].flow == Share(total, |js|, i)
    ensures ListFlow(jumps, js[..k]) == SharesUpTo(total, |js|, k)
  {
    if k > 0 {
      ListFlowShares(jumps, js, total, k - 1);
      assert js[..k][..k - 1] == js[..k - 1];
    }
  }

  /// No flow of a block or a jump is negative.
  ghost predicate NonNegative(blocks: seq<FlowBlock>, jumps: seq<FlowJump>)
  {
    (forall b :: 0 <= b < |blocks| ==> blocks[b].flow >= 0) &&
    (forall j :: 0 <= j < |jumps| ==> jumps[j].flow >= 0)
  }

  // ----- Rebalancing one subgraph -----

  /// The successor jumps of `b` in `J` carry the shares of `total`, and `J`
  /// differs from `J0` only in flows.
  ghost predicate SplitDone(J0: seq<FlowJump>, J: seq<FlowJump>, b: nat, total: int)
  {
    SameEnds(J0, J) &&
    forall k :: 0 <= k < |SuccJumps(J0, b)| ==>
      SuccJumps(J0, b)[k] < |J| && J[SuccJumps(J0, b)[k]].flow == Share(total, |SuccJumps(J0, b)|, k)
  }

  /// What the successor loop keeps: the first `i` successor jumps carry their shares.
  ghost predicate SplitInv(J0: seq<FlowJump>, J: seq<FlowJump>, b: nat, succ: seq<nat>, total: int, i: nat)
  {
    succ == SuccJumps(J0, b) && i <= |succ| && SameEnds(J0, J) &&
    (forall k :: 0 <= k < |succ| ==> succ[k] < |J0| && J0[succ[k]].source == b) &&
    (forall k, m :: 0 <= k < m < |succ| ==> succ[k] < succ[m]) &&
    (forall k :: 0 <= k < i ==> J[succ[k]].flow == Share(total, |succ|, k)) &&
    (forall j :: 0 <= j < |J| && J[j].source != b ==> J[j] == J0[j])
  }

  lemma {:induction false} SplitStep(J0: seq<FlowJump>, J: seq<FlowJump>, b: nat, succ: seq<nat>, total: int, i: nat, x: int)
    requires SplitInv(J0, J, b, succ, total, i) && i < |succ| && x == Share(total, |succ|, i)
    ensures SplitInv(J0, J[succ[i] := J[succ[i]].(flow := x)], b, succ, total, i + 1)
  {
  }

  /// The successor loop of rebalanceDanglingSubgraph for block `b`: every
  /// successor jump but the last gets half of what is left, and the last
  /// gets the rest, so the successors together carry `total`.
  method SplitFlow(f: FlowFunction, b: nat, total: int)
    requires f.Valid()
    modifies f
    ensures f.Valid() && f.blocks == old(f.blocks) && f.entry == old(f.entry)
    ensures SplitDone(old(f.jumps), f.jumps, b, total)
    ensures forall j :: 0 <= j < |f.jumps| && f.jumps[j].source != b ==> f.jumps[j] == old(f.jumps)[j]
    ensures SuccJumps(old(f.jumps), b) != [] ==> OutFlow(f.jumps, b) == total
  {
    ghost var J0 := f.jumps;
    var succ := SuccJumps(f.jumps, b);
    SuccJumpsSpec(J0, b);
    var rest := total;
    var i := 0;
    while i < |succ|
      invariant f.Valid() && f.blocks == old(f.blocks) && f.entry == old(f.entry)
      invariant SplitInv(J0, f.jumps, b, succ, total, i)
      invariant i < |succ| ==> rest == Remaining(total, i)
    {
      var j := succ[i];
      if i + 1 == |succ| {
        SplitStep(J0, f.jumps, b, succ, total, i, rest);
        f.jumps := f.jumps[j := f.jumps[j].(flow := rest)];
      } else {
        var flow := rest / 2;
        SplitStep(J0, f.jumps, b, succ, total, i, flow);
        f.jumps := f.jumps[j := f.jumps[j].(flow := flow)];
        rest := rest - flow;
      }
      i := i + 1;
    }
    SplitSum(J0, f.jumps, b, succ, total);
  }

  /// Once all successor jumps carry their shares, the block sends out `total`.
  lemma {:induction false} SplitSum(J0: seq<FlowJump>, J: seq<FlowJump>, b: nat, succ: seq<nat>, total: int)
    requires SplitInv(J0, J, b, succ, total, |succ|)
    ensures SplitDone(J0, J, b, total)
    ensures succ != [] ==> OutFlow(J, b) == total
  {
    if succ != [] {
      AdjacencySameEnds(J0, J, b);
      ListFlowShares(J, succ, total, |succ|);
      assert succ[..|succ|] == succ;
      SharesSum(total, |succ|);
      ListFlowOut(J, b);
    }
  }

  /// The count `b` gets in rebalanceDanglingSubgraph: the first block keeps
  /// its count, an inner block takes the sum of its incoming flows.
  function NewCount(blocks: seq<FlowBlock>, jumps: seq<FlowJump>, src: nat, b: nat): int
    requires b < |blocks|
  {
    if b == src then blocks[b].flow else InFlow(jumps, b)
  }

  /// `B`, `J` are `B0`, `J0` after block `b` was rebalanced: its count is
  /// its new count, its successor jumps carry the shares of it and so send
  /// it all out, and nothing else changed.
  ghost predicate BlockRebalanced(B0: seq<FlowBlock>, J0: seq<FlowJump>, B: seq<FlowBlock>, J: seq<FlowJump>, src: nat, b: nat)
  {
    b < |B0| && B == B0[b := B0[b].(flow := NewCount(B0, J0, src, b))] &&
    SplitDone(J0, J, b, B[b].flow) &&
    (SuccJumps(J0, b) != [] ==> OutFlow(J, b) == B[b].flow) &&
    (forall j :: 0 <= j < |J| && J[j].source != b ==> J[j] == J0[j])
  }

  /// The body of rebalanceDanglingSubgraph's loop for block `b`.
  method RebalanceBlock(f: FlowFunction, src: nat, b: nat)
    requires f.Valid() && b < |f.blocks|
    modifies f
    ensures f.Valid() && f.entry == old(f.entry)
    ensures BlockRebalanced(old(f.blocks), old(f.jumps), f.blocks, f.jumps, src, b)
  {
    var total := 0;
    if b == src {
      total := f.blocks[b].flow;
    } else {
      var jumps := f.jumps;
      var preds := PredJumps(jumps, b);
      PredJumpsSpec(jumps, b);
      var i := 0;
      while i < |preds|
        invariant 0 <= i <= |preds| && total == ListFlow(jumps, preds[..i])
      {
        assert preds[..i + 1][..i] == preds[..i];
        total := total + jumps[preds[i]].flow;
        i := i + 1;
      }
      assert preds[..i] == preds;
      ListFlowIn(jumps, b);
      f.blocks := f.blocks[b := f.blocks[b].(flow := total)];
    }
    SplitFlow(f, b, total);
  }

  /// No element occurs twice.
  ghost predicate Distinct(s: seq<nat>)
  {
    forall p, q :: 0 <= p < q < |s| ==> s[p] != s[q]
  }

  /// Every jump between two blocks of `order` goes forward in it.
  ghost predicate Topological(jumps: seq<FlowJump>, order: seq<nat>)
  {
    forall j, p, q :: 0 <= j < |jumps| && 0 <= p < |order| && 0 <= q < |order| &&
      jumps[j].source == order[p] && jumps[j].target == order[q]
      ==> p < q
  }

  /// The first `m` blocks of `order` are balanced: each with successors sends
  /// out its count, and each but the first takes in its count.
  ghost predicate BalancedUpTo(blocks: seq<FlowBlock>, jumps: seq<FlowJump>, order: seq<nat>, m: nat)
  {
    m <= |order| && (forall k :: 0 <= k < |order| ==> order[k] < |blocks|) &&
    forall k :: 0 <= k < m ==>
      (SuccJumps(jumps, order[k]) != [] ==> OutFlow(jumps, order[k]) == blocks[order[k]].flow) &&
      (k > 0 ==> blocks[order[k]].flow == InFlow(jumps, order[k]))
  }

  /// Rebalancing block `order[m]` keeps the blocks before it balanced: the
  /// jumps it changes leave `order[m]` and, by the topological order, enter
  /// none of them.
  lemma {:induction false} BalancedStep(B: seq<FlowBlock>, J: seq<FlowJump>, B': seq<FlowBlock>, J': seq<FlowJump>,
                                        order: seq<nat>, m: nat)
    requires BalancedUpTo(B, J, order, m) && m < |order| && Distinct(order) && Topological(J, order)
    requires SameEnds(J, J') && |B'| == |B|
    requires forall j :: 0 <= j < |J'| && J'[j].source != order[m] ==> J'[j] == J[j]
    requires forall v :: 0 <= v < |B| && v != order[m] ==> B'[v] == B[v]
    requires SuccJumps(J, order[m]) != [] ==> OutFlow(J', order[m]) == B'[order[m]].flow
    requires m > 0 ==> B'[order[m]].flow == InFlow(J, order[m])
    ensures BalancedUpTo(B', J', order, m + 1) && Topological(J', order)
  {
    var b := order[m];
    forall k | 0 <= k < m + 1
      ensures SuccJumps(J', order[k]) != [] ==> OutFlow(J', order[k]) == B'[order[k]].flow
      ensures k > 0 ==> B'[order[k]].flow == InFlow(J', order[k])
    {
      var v := order[k];
      AdjacencySameEnds(J, J', v);
      forall j | 0 <= j < |J| && J[j].target == v ensures J[j].flow == J'[j].flow {
        if J[j].source == b {
          assert false;
        }
      }
      InFlowUnchanged(J, J', v);
      if k < m {
        OutFlowUnchanged(J, J', v);
      }
    }
  }

  /// What rebalanceDanglingSubgraph keeps after the first `m` blocks of `order`.
  ghost predicate RebalanceInv(B0: seq<FlowBlock>, J0: seq<FlowJump>, B: seq<FlowBlock>, J: seq<FlowJump>,
                               src: nat, order: seq<nat>, m: nat)
  {
    m <= |order| && SameEnds(J0, J) && |B| == |B0| &&
    BalancedUpTo(B, J, order, m) && Topological(J, order) &&
    (forall v :: 0 <= v < |B| ==> B[v] == B0[v].(flow := B[v].flow)) &&
    (forall v :: 0 <= v < |B| && (v == src || v !in order[..m]) ==> B[v] == B0[v]) &&
    (forall j :: 0 <= j < |J| && J[j].source !in order[..m] ==> J[j] == J0[j]) &&
    (NonNegative(B0, J0) ==> NonNegative(B, J))
  }

  lemma {:induction false} RebalanceStep(B0: seq<FlowBlock>, J0: seq<FlowJump>, B1: seq<FlowBlock>, J1: seq<FlowJump>,
                                         B2: seq<FlowBlock>, J2: seq<FlowJump>, src: nat, order: seq<nat>, m: nat)
    requires RebalanceInv(B0, J0, B1, J1, src, order, m) && m < |order| && order[0] == src && Distinct(order)
    requires BlockRebalanced(B1, J1, B2, J2, src, order[m])
    ensures RebalanceInv(B0, J0, B2, J2, src, order, m + 1)
  {
    var b := order[m];
    assert m > 0 ==> b != src by {
      if m > 0 {
        assert order[0] == src;
      }
    }
    BalancedStep(B1, J1, B2, J2, order, m);
    RebalanceNonNegative(B0, J0, B1, J1, B2, J2, src, b);
    assert order[..m + 1] == order[..m] + [b];
  }

  /// rebalanceDanglingSubgraph: visits the blocks of the subgraph in the
  /// topological order `order`, which starts with `src`. Afterwards every
  /// block of the subgraph with successors sends out its count, every
  /// block but `src` takes in its count, and only the counts of the inner
  /// blocks and the flows of jumps leaving the subgraph's blocks changed.
  method RebalanceDanglingSubgraph(f: FlowFunction, src: nat, order: seq<nat>)
    requires f.Valid() && src < |f.blocks| && f.blocks[src].flow > 0
    requires |order| > 0 && order[0] == src && Distinct(order) && Topological(f.jumps, order)
    requires forall k :: 0 <= k < |order| ==> order[k] < |f.blocks|
    modifies f
    ensures f.Valid() && f.entry == old(f.entry)
    ensures RebalanceInv(old(f.blocks), old(f.jumps), f.blocks, f.jumps, src, order, |order|)
  {
    ghost var B0, J0 := f.blocks, f.jumps;
    var m := 0;
    while m < |order|
      invariant f.Valid() && f.entry == old(f.entry)
      invariant RebalanceInv(B0, J0, f.blocks, f.jumps, src, order, m)
    {
      ghost var B1, J1 := f.blocks, f.jumps;
      RebalanceBlock(f, src, order[m]);
      RebalanceStep(B0, J0, B1, J1, f.blocks, f.jumps, src, order, m);
      m := m + 1;
    }
  }

  /// One block's rebalancing keeps every flow non-negative.
  lemma {:induction false} RebalanceNonNegative(B0: seq<FlowBlock>, J0: seq<FlowJump>, B1: seq<FlowBlock>, J1: seq<FlowJump>,
                                                B2: seq<FlowBlock>, J2: seq<FlowJump>, src: nat, b: nat)
    requires NonNegative(B0, J0) ==> NonNegative(B1, J1)
    requires b < |B1| && SameEnds(J1, J2)
    requires B2 == B1[b := B1[b].(flow := NewCount(B1, J1, src, b))]
    requires SplitDone(J1, J2, b, B2[b].flow)
    requires forall j :: 0 <= j < |J2| && J2[j].source != b ==> J2[j] == J1[j]
    ensures NonNegative(B0, J0) ==> NonNegative(B2, J2)
  {
    if NonNegative(B0, J0) {
      if b != src {
        InFlowNonNegative(J1, b);
      }
      SuccJumpsSpec(J1, b);
      forall j | 0 <= j < |J2| ensures J2[j].flow >= 0 {
        if J2[j].source == b {
          var k :| 0 <= k < |SuccJumps(J1, b)| && SuccJumps(J1, b)[k] == j;
          SharesBounded(B2[b].flow, |SuccJumps(J1, b)|, k);
        }
      }
    }
  }
}
