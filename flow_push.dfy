// Pushing one unit of flow along a path of jumps, as
// FlowAdjuster::joinIsolatedComponents does for each isolated block, and
// what that does to the conservation rules verifyWeights checks.
module FlowPush {
  import opened FlowGraph
  import opened FlowPaths
  import opened FlowVerify

  /// How many times jump `j` occurs among the first `k` jumps of `path`.
  function Occurrences(path: seq<nat>, k: nat, j: nat): nat
    requires k <= |path|
  {
    if k == 0 then 0
    else Occurrences(path, k - 1, j) + (if path[k - 1] == j then 1 else 0)
  }

  /// How many of the first `k` jumps of `path` end at block `b`.
  function TargetHits(jumps: seq<FlowJump>, path: seq<nat>, k: nat, b: nat): nat
    requires k <= |path|
  {
    if k == 0 then 0
    else
      var last := path[k - 1];
      TargetHits(jumps, path, k - 1, b) + (if last < |jumps| && jumps[last].target == b then 1 else 0)
  }

  /// Jump `j` with one more unit of flow.
  function BumpJump(jumps: seq<FlowJump>, j: nat): (r: seq<FlowJump>)
    requires j < |jumps|
    ensures |r| == |jumps| && r[j].flow == jumps[j].flow + 1
    ensures forall i :: 0 <= i < |jumps| ==> r[i] == jumps[i].(flow := r[i].flow)
    ensures forall i :: 0 <= i < |jumps| && i != j ==> r[i] == jumps[i]
  {
    jumps[j := jumps[j].(flow := jumps[j].flow + 1)]
  }

  /// Block `b` with one more unit of flow.
  function BumpBlock(blocks: seq<FlowBlock>, b: nat): (r: seq<FlowBlock>)
    requires b < |blocks|
    ensures |r| == |blocks| && r[b].flow == blocks[b].flow + 1
    ensures forall i :: 0 <= i < |blocks| ==> r[i] == blocks[i].(flow := r[i].flow)
    ensures forall i :: 0 <= i < |blocks| && i != b ==> r[i] == blocks[i]
  {
    blocks[b := blocks[b].(flow := blocks[b].flow + 1)]
  }

  /// The jumps after one unit was pushed along each of the first `k` jumps
  /// of `path` in turn.
  function PushedJumps(jumps: seq<FlowJump>, path: seq<nat>, k: nat): (r: seq<FlowJump>)
    requires k <= |path|
    ensures |r| == |jumps|
  {
    if k == 0 then jumps
    else
      var before, last := PushedJumps(jumps, path, k - 1), path[k - 1];
      if last < |before| then BumpJump(before, last) else before
  }

  /// The blocks after one unit was pushed into the target of each of the
  /// first `k` jumps of `path`.
  function PushedBlocks(blocks: seq<FlowBlock>, jumps: seq<FlowJump>, path: seq<nat>, k: nat): (r: seq<FlowBlock>)
    requires k <= |path|
    ensures |r| == |blocks|
  {
    if k == 0 then blocks
    else
      var before, last := PushedBlocks(blocks, jumps, path, k - 1), path[k - 1];
      if last < |jumps| && jumps[last].target < |before| then BumpBlock(before, jumps[last].target)
      else before
  }

  /// Each jump gains one unit per occurrence on the path.
  lemma {:induction false} PushedJumpsCount(jumps: seq<FlowJump>, path: seq<nat>, k: nat)
    requires k <= |path|
    ensures forall j :: 0 <= j < |jumps| ==>
      PushedJumps(jumps, path, k)[j] == jumps[j].(flow := jumps[j].flow + Occurrences(path, k, j))
  {
    if k != 0 {
      PushedJumpsCount(jumps, path, k - 1);
    }
  }

  /// Each block gains one unit per jump of the path that ends at it.
  lemma {:induction false} PushedBlocksCount(blocks: seq<FlowBlock>, jumps: seq<FlowJump>, path: seq<nat>, k: nat)
    requires k <= |path| && forall j :: 0 <= j < |jumps| ==> jumps[j].target < |blocks|
    ensures forall b :: 0 <= b < |blocks| ==>
      PushedBlocks(blocks, jumps, path, k)[b] == blocks[b].(flow := blocks[b].flow + TargetHits(jumps, path, k, b))
  {
    if k != 0 {
      PushedBlocksCount(blocks, jumps, path, k - 1);
    }
  }

  /// A block hit by the path is the target of one of its jumps.
  lemma {:induction false} TargetHitsWitness(jumps: seq<FlowJump>, path: seq<nat>, k: nat, b: nat)
    requires k <= |path| && TargetHits(jumps, path, k, b) > 0
    ensures exists m :: 0 <= m < k && path[m] < |jumps| && jumps[path[m]].target == b
  {
    var last := path[k - 1];
    if !(last < |jumps| && jumps[last].target == b) {
      TargetHitsWitness(jumps, path, k - 1, b);
    }
  }


  /// How many of the first `k` jumps of `path` start at block `b`.
  function SourceHits(jumps: seq<FlowJump>, path: seq<nat>, k: nat, b: nat): nat
    requires k <= |path|
  {
    if k == 0 then 0
    else
      var last := path[k - 1];
      SourceHits(jumps, path, k - 1, b) + (if last < |jumps| && jumps[last].source == b then 1 else 0)
  }

  /// A block left by the path is the source of one of its jumps.
  lemma {:induction false} SourceHitsWitness(jumps: seq<FlowJump>, path: seq<nat>, k: nat, b: nat)
    requires k <= |path| && SourceHits(jumps, path, k, b) > 0
    ensures exists m :: 0 <= m < k && path[m] < |jumps| && jumps[path[m]].source == b
  {
    var last := path[k - 1];
    if !(last < |jumps| && jumps[last].source == b) {
      SourceHitsWitness(jumps, path, k - 1, b);
    }
  }

  /// Along a path from `src`, the first `k` jumps enter each block as often
  /// as they leave it, except that they leave `src` once more and enter the
  /// block reached after them once more.
  lemma {:induction false} Telescope(jumps: seq<FlowJump>, src: nat, dst: nat, path: seq<nat>, k: nat, b: nat)
    requires IsPath(jumps, src, dst, path) && 0 < k <= |path|
    ensures TargetHits(jumps, path, k, b) + (if b == src then 1 else 0) ==
            SourceHits(jumps, path, k, b) + (if b == jumps[path[k - 1]].target then 1 else 0)
  {
    if k > 1 {
      Telescope(jumps, src, dst, path, k - 1, b);
      assert jumps[path[k - 2]].target == jumps[path[k - 1]].source;
    }
  }

  /// One more unit on jump `j` adds one to the in-flow of its target and to
  /// the out-flow of its source.
  lemma {:induction false} FlowsBump(jumps: seq<FlowJump>, j: nat, b: nat)
    requires j < |jumps|
    ensures InFlow(BumpJump(jumps, j), b) == InFlow(jumps, b) + (if jumps[j].target == b then 1 else 0)
    ensures OutFlow(BumpJump(jumps, j), b) == OutFlow(jumps, b) + (if jumps[j].source == b then 1 else 0)
    decreases |jumps|
  {
    var r, n := BumpJump(jumps, j), |jumps|;
    if j == n - 1 {
      assert r[..n - 1] == jumps[..n - 1];
    } else {
      assert r[..n - 1] == BumpJump(jumps[..n - 1], j);
      FlowsBump(jumps[..n - 1], j, b);
    }
  }

  /// Pushing along a path adds to each block's in-flow the jumps of the
  /// path that enter it, and to its out-flow those that leave it.
  lemma {:induction false} FlowsPushed(jumps: seq<FlowJump>, path: seq<nat>, k: nat, b: nat)
    requires k <= |path| && forall m :: 0 <= m < |path| ==> path[m] < |jumps|
    ensures InFlow(PushedJumps(jumps, path, k), b) == InFlow(jumps, b) + TargetHits(jumps, path, k, b)
    ensures OutFlow(PushedJumps(jumps, path, k), b) == OutFlow(jumps, b) + SourceHits(jumps, path, k, b)
  {
    if k > 0 {
      FlowsPushed(jumps, path, k - 1, b);
      PushedJumpsCount(jumps, path, k - 1);
      FlowsBump(PushedJumps(jumps, path, k - 1), path[k - 1], b);
    }
  }

  /// The blocks after one more unit on the entry `e` and on each jump of
  /// `path`.
  function JoinedBlocks(blocks: seq<FlowBlock>, jumps: seq<FlowJump>, e: nat, path: seq<nat>): (r: seq<FlowBlock>)
    requires e < |blocks|
    ensures |r| == |blocks|
  {
    PushedBlocks(BumpBlock(blocks, e), jumps, path, |path|)
  }

  /// A unit pushed from an entry `e` along a nonempty path to an exit `x`
  /// adds one to `e`, one to `x`, and to every other block as much flow as
  /// the path carries through it.
  lemma {:induction false} JoinedBlockDelta(blocks: seq<FlowBlock>, jumps: seq<FlowJump>, e: nat, x: nat, path: seq<nat>, b: nat)
    requires GraphOk(blocks, jumps, e) && IsEntry(jumps, e) && IsExit(jumps, x)
    requires IsPath(jumps, e, x, path) && path != [] && b < |blocks|
    ensures e != x
    ensures JoinedBlocks(blocks, jumps, e, path)[b] == blocks[b].(flow := JoinedBlocks(blocks, jumps, e, path)[b].flow)
    ensures JoinedBlocks(blocks, jumps, e, path)[b].flow == blocks[b].flow +
      (if IsEntry(jumps, b) then (if b == e then 1 else 0)
       else if IsExit(jumps, b) then (if b == x then 1 else 0)
       else TargetHits(jumps, path, |path|, b))
    ensures InFlow(PushedJumps(jumps, path, |path|), b) == InFlow(jumps, b) + TargetHits(jumps, path, |path|, b)
    ensures OutFlow(PushedJumps(jumps, path, |path|), b) == OutFlow(jumps, b) + SourceHits(jumps, path, |path|, b)
    ensures TargetHits(jumps, path, |path|, b) + (if b == e then 1 else 0) ==
            SourceHits(jumps, path, |path|, b) + (if b == x then 1 else 0)
    ensures IsEntry(jumps, b) ==> TargetHits(jumps, path, |path|, b) == 0
    ensures IsExit(jumps, b) ==> SourceHits(jumps, path, |path|, b) == 0
  {
    var n := |path|;
    assert jumps[path[0]].source == e;
    assert jumps[path[n - 1]].target == x;
    PushedBlocksCount(BumpBlock(blocks, e), jumps, path, n);
    FlowsPushed(jumps, path, n, b);
    Telescope(jumps, e, x, path, n, b);
    if TargetHits(jumps, path, n, b) > 0 {
      TargetHitsWitness(jumps, path, n, b);
    }
    if SourceHits(jumps, path, n, b) > 0 {
      SourceHitsWitness(jumps, path, n, b);
    }
  }

  /// Pushing along a path changes no jump's ends.
  lemma {:induction false} PushedSameEnds(jumps: seq<FlowJump>, path: seq<nat>)
    ensures SameEnds(jumps, PushedJumps(jumps, path, |path|))
  {
    PushedJumpsCount(jumps, path, |path|);
  }

  /// Conservation holds at a block after a unit is pushed from the entry
  /// along a path to an exit exactly when it held before.
  lemma {:induction false} JoinedBlockConserved(blocks: seq<FlowBlock>, jumps: seq<FlowJump>, e: nat, x: nat, path: seq<nat>, b: nat)
    requires GraphOk(blocks, jumps, e) && IsEntry(jumps, e) && IsExit(jumps, x)
    requires IsPath(jumps, e, x, path) && path != [] && b < |blocks|
    ensures BlockConserved(JoinedBlocks(blocks, jumps, e, path), PushedJumps(jumps, path, |path|), b) <==>
            BlockConserved(blocks, jumps, b)
  {
    JoinedBlockDelta(blocks, jumps, e, x, path, b);
    PushedSameEnds(jumps, path);
    EntryExitSameEnds(jumps, PushedJumps(jumps, path, |path|), b);
  }

  /// The entry total after the push, over the first `k` blocks.
  lemma {:induction false} JoinedTotals(blocks: seq<FlowBlock>, jumps: seq<FlowJump>, e: nat, x: nat, path: seq<nat>, k: nat)
    requires GraphOk(blocks, jumps, e) && IsEntry(jumps, e) && IsExit(jumps, x)
    requires IsPath(jumps, e, x, path) && path != [] && k <= |blocks|
    ensures EntryTotal(JoinedBlocks(blocks, jumps, e, path), PushedJumps(jumps, path, |path|), k) ==
            EntryTotal(blocks, jumps, k) + (if e < k then 1 else 0)
    ensures ExitTotal(JoinedBlocks(blocks, jumps, e, path), PushedJumps(jumps, path, |path|), k) ==
            ExitTotal(blocks, jumps, k) + (if x < k then 1 else 0)
  {
    var B1, J1 := JoinedBlocks(blocks, jumps, e, path), PushedJumps(jumps, path, |path|);
    PushedSameEnds(jumps, path);
    forall b | 0 <= b < k
      ensures IsEntry(J1, b) == IsEntry(jumps, b) && IsExit(J1, b) == IsExit(jumps, b)
      ensures IsEntry(jumps, b) ==> B1[b].flow == blocks[b].flow + (if b == e then 1 else 0)
      ensures !IsEntry(jumps, b) && IsExit(jumps, b) ==> B1[b].flow == blocks[b].flow + (if b == x then 1 else 0)
    {
      JoinedBlockDelta(blocks, jumps, e, x, path, b);
      EntryExitSameEnds(jumps, J1, b);
    }
    JoinedBlockDelta(blocks, jumps, e, x, path, e);
    assert jumps[path[|path| - 1]].target == x;
    TotalsShift(blocks, jumps, B1, J1, e, x, k);
  }

  /// The entry and exit totals of the first `k` blocks move by one unit at
  /// `e` and at `x` when only those two blocks' counts among the entries and
  /// exits move, by one unit each.
  lemma {:induction false} TotalsShift(B0: seq<FlowBlock>, J0: seq<FlowJump>, B1: seq<FlowBlock>, J1: seq<FlowJump>,
                                       e: nat, x: nat, k: nat)
    requires |B1| == |B0| && k <= |B0| && IsEntry(J0, e) && !IsEntry(J0, x) && IsExit(J0, x)
    requires forall b :: 0 <= b < k ==> IsEntry(J1, b) == IsEntry(J0, b) && IsExit(J1, b) == IsExit(J0, b)
    requires forall b :: 0 <= b < k && IsEntry(J0, b) ==> B1[b].flow == B0[b].flow + (if b == e then 1 else 0)
    requires forall b :: 0 <= b < k && !IsEntry(J0, b) && IsExit(J0, b) ==> B1[b].flow == B0[b].flow + (if b == x then 1 else 0)
    ensures EntryTotal(B1, J1, k) == EntryTotal(B0, J0, k) + (if e < k then 1 else 0)
    ensures ExitTotal(B1, J1, k) == ExitTotal(B0, J0, k) + (if x < k then 1 else 0)
  {
    if k > 0 {
      TotalsShift(B0, J0, B1, J1, e, x, k - 1);
    }
  }

  /// What the first loop of verifyWeights accepts: conservation at every
  /// block and equal entry and exit totals.
  ghost predicate Balanced(blocks: seq<FlowBlock>, jumps: seq<FlowJump>)
  {
    ConservedUpTo(blocks, jumps, |blocks|) && EntryTotal(blocks, jumps, |blocks|) == ExitTotal(blocks, jumps, |blocks|)
  }

  /// One more unit on an entry and along a nonempty path from it to an exit
  /// keeps a balanced flow balanced, and an unbalanced one unbalanced.
  lemma {:induction false} PushPathKeepsBalance(blocks: seq<FlowBlock>, jumps: seq<FlowJump>, e: nat, x: nat, path: seq<nat>)
    requires GraphOk(blocks, jumps, e) && IsEntry(jumps, e) && IsExit(jumps, x)
    requires IsPath(jumps, e, x, path) && path != []
    ensures Balanced(JoinedBlocks(blocks, jumps, e, path), PushedJumps(jumps, path, |path|)) <==> Balanced(blocks, jumps)
  {
    var B1, J1, n := JoinedBlocks(blocks, jumps, e, path), PushedJumps(jumps, path, |path|), |blocks|;
    forall b | 0 <= b < n ensures BlockConserved(B1, J1, b) <==> BlockConserved(blocks, jumps, b) {
      JoinedBlockConserved(blocks, jumps, e, x, path, b);
    }
    assert ConservedUpTo(B1, J1, n) <==> ConservedUpTo(blocks, jumps, n);
    assert x == jumps[path[|path| - 1]].target;
    JoinedTotals(blocks, jumps, e, x, path, n);
  }
}
