// The end-to-end check on inferred counts (verifyWeights): flow conservation
// at every block, global balance between entries and exits, and no
// positive count unreachable from the entry along positive-flow jumps.
module FlowVerify {
  import opened FlowGraph
  import opened FlowPaths

  /// Sum of the flows of the jumps entering block `v`.
  function InFlow(jumps: seq<FlowJump>, v: nat): int
  {
    if jumps == [] then 0
    else
      var last := jumps[|jumps| - 1];
      InFlow(jumps[..|jumps| - 1], v) + (if last.target == v then last.flow else 0)
  }

  /// Sum of the flows of the jumps leaving block `v`.
  function OutFlow(jumps: seq<FlowJump>, v: nat): int
  {
    if jumps == [] then 0
    else
      var last := jumps[|jumps| - 1];
      OutFlow(jumps[..|jumps| - 1], v) + (if last.source == v then last.flow else 0)
  }

  /// Conservation at one block: an entry sends out its count, an exit takes
  /// in its count, any other block does both.
  predicate BlockConserved(blocks: seq<FlowBlock>, jumps: seq<FlowJump>, b: nat)
    requires b < |blocks|
  {
    if IsEntry(jumps, b) then blocks[b].flow == OutFlow(jumps, b)
    else if IsExit(jumps, b) then blocks[b].flow == InFlow(jumps, b)
    else blocks[b].flow == OutFlow(jumps, b) && blocks[b].flow == InFlow(jumps, b)
  }

  predicate ConservedUpTo(blocks: seq<FlowBlock>, jumps: seq<FlowJump>, k: nat)
    requires k <= |blocks|
  {
    forall b :: 0 <= b < k ==> BlockConserved(blocks, jumps, b)
  }

  /// Sum of the counts of the entry blocks among the first `k`.
  function EntryTotal(blocks: seq<FlowBlock>, jumps: seq<FlowJump>, k: nat): int
    requires k <= |blocks|
  {
    if k == 0 then 0
    else EntryTotal(blocks, jumps, k - 1) + (if IsEntry(jumps, k - 1) then blocks[k - 1].flow else 0)
  }

  /// Sum of the counts of the exit blocks among the first `k`; a block that
  /// is both an entry and an exit counts as an entry only.
  function ExitTotal(blocks: seq<FlowBlock>, jumps: seq<FlowJump>, k: nat): int
    requires k <= |blocks|
  {
    if k == 0 then 0
    else
      ExitTotal(blocks, jumps, k - 1) +
      (if !IsEntry(jumps, k - 1) && IsExit(jumps, k - 1) then blocks[k - 1].flow else 0)
  }

  /// Every block with a nonzero count is reached from the entry along jumps
  /// with positive flow.
  ghost predicate NoIsolatedFlow(blocks: seq<FlowBlock>, jumps: seq<FlowJump>, entry: nat)
  {
    forall b :: 0 <= b < |blocks| ==> blocks[b].flow == 0 || Reaches(jumps, entry, b)
  }

  /// What verifyWeights accepts.
  ghost predicate WeightsOk(blocks: seq<FlowBlock>, jumps: seq<FlowJump>, entry: nat)
  {
    ConservedUpTo(blocks, jumps, |blocks|) &&
    EntryTotal(blocks, jumps, |blocks|) == ExitTotal(blocks, jumps, |blocks|) &&
    NoIsolatedFlow(blocks, jumps, entry)
  }

  /// verifyWeights: true exactly when every assertion of the check holds.
  method VerifyWeights(f: FlowFunction) returns (ok: bool)
    requires f.Valid()
    ensures ok <==> WeightsOk(f.blocks, f.jumps, f.entry)
  {
    var blocks, jumps := f.blocks, f.jumps;
    var inFlow, outFlow := SumJumpFlows(|blocks|, jumps);
    var conserved, totalIn, totalOut := CheckConservation(blocks, jumps, inFlow, outFlow);
    var reached := CheckReached(blocks, jumps, f.entry);
    ok := conserved && totalIn == totalOut && reached;
  }

  /// The first loop of verifyWeights over the blocks: conservation at every
  /// block, and the entry and exit totals.
  method CheckConservation(blocks: seq<FlowBlock>, jumps: seq<FlowJump>, inFlow: seq<int>, outFlow: seq<int>)
    returns (conserved: bool, totalIn: int, totalOut: int)
    requires |inFlow| == |blocks| && |outFlow| == |blocks|
    requires forall v :: 0 <= v < |blocks| ==> inFlow[v] == InFlow(jumps, v) && outFlow[v] == OutFlow(jumps, v)
    ensures conserved == ConservedUpTo(blocks, jumps, |blocks|)
    ensures totalIn == EntryTotal(blocks, jumps, |blocks|) && totalOut == ExitTotal(blocks, jumps, |blocks|)
  {
    totalIn, totalOut := 0, 0;
    conserved := true;
    var i := 0;
    while i < |blocks|
      invariant 0 <= i <= |blocks|
      invariant conserved == ConservedUpTo(blocks, jumps, i)
      invariant totalIn == EntryTotal(blocks, jumps, i) && totalOut == ExitTotal(blocks, jumps, i)
    {
      var flow := blocks[i].flow;
      var isEntry, isExit := IsEntry(jumps, i), IsExit(jumps, i);
      var blockOk := if isEntry then flow == outFlow[i]
                     else if isExit then flow == inFlow[i]
                     else flow == outFlow[i] && flow == inFlow[i];
      ConservedStep(blocks, jumps, i, isEntry, isExit, inFlow[i], outFlow[i]);
      var newIn := if isEntry then totalIn + flow else totalIn;
      var newOut := if !isEntry && isExit then totalOut + flow else totalOut;
      TotalsStep(blocks, jumps, i, isEntry, isExit, totalIn, totalOut);
      totalIn, totalOut := newIn, newOut;
      conserved := conserved && blockOk;
      i := i + 1;
    }
  }

  /// One more block of the first loop of verifyWeights: conservation.
  lemma {:induction false} ConservedStep(blocks: seq<FlowBlock>, jumps: seq<FlowJump>, i: nat,
                                         isEntry: bool, isExit: bool, inF: int, outF: int)
    requires i < |blocks| && isEntry == IsEntry(jumps, i) && isExit == IsExit(jumps, i)
    requires inF == InFlow(jumps, i) && outF == OutFlow(jumps, i)
    ensures ConservedUpTo(blocks, jumps, i + 1) ==
      (ConservedUpTo(blocks, jumps, i) &&
       if isEntry then blocks[i].flow == outF
       else if isExit then blocks[i].flow == inF
       else blocks[i].flow == outF && blocks[i].flow == inF)
  {
    if ConservedUpTo(blocks, jumps, i + 1) {
      assert BlockConserved(blocks, jumps, i);
    }
  }

  /// One more block of the first loop of verifyWeights: the totals.
  lemma {:induction false} TotalsStep(blocks: seq<FlowBlock>, jumps: seq<FlowJump>, i: nat,
                                      isEntry: bool, isExit: bool, totalIn: int, totalOut: int)
    requires i < |blocks| && isEntry == IsEntry(jumps, i) && isExit == IsExit(jumps, i)
    requires totalIn == EntryTotal(blocks, jumps, i) && totalOut == ExitTotal(blocks, jumps, i)
    ensures EntryTotal(blocks, jumps, i + 1) == if isEntry then totalIn + blocks[i].flow else totalIn
    ensures ExitTotal(blocks, jumps, i + 1) == if !isEntry && isExit then totalOut + blocks[i].flow else totalOut
  {
  }

  /// The search of verifyWeights from the entry, and its final loop: true
  /// when every block with a nonzero count was reached.
  method CheckReached(blocks: seq<FlowBlock>, jumps: seq<FlowJump>, entry: nat) returns (reached: bool)
    requires GraphOk(blocks, jumps, entry)
    ensures reached <==> NoIsolatedFlow(blocks, jumps, entry)
  {
    var n := |blocks|;
    var visited := FindReachable(jumps, entry, seq(n, _ => false));
    ReachedIsReachable(jumps, entry, visited);
    reached := true;
    var i := 0;
    while i < n
      invariant 0 <= i <= n
      invariant reached <==> forall b :: 0 <= b < i ==> blocks[b].flow == 0 || Reaches(jumps, entry, b)
    {
      if !visited[i] && blocks[i].flow != 0 {
        reached := false;
      }
      i := i + 1;
    }
  }

  /// The per-block in- and out-flows of the jumps.
  method SumJumpFlows(n: nat, jumps: seq<FlowJump>) returns (inFlow: seq<int>, outFlow: seq<int>)
    requires forall j :: 0 <= j < |jumps| ==> jumps[j].source < n && jumps[j].target < n
    ensures |inFlow| == n && |outFlow| == n
    ensures forall v :: 0 <= v < n ==> inFlow[v] == InFlow(jumps, v) && outFlow[v] == OutFlow(jumps, v)
  {
    inFlow, outFlow := seq(n, _ => 0), seq(n, _ => 0);
    var j := 0;
    while j < |jumps|
      invariant 0 <= j <= |jumps| && |inFlow| == n && |outFlow| == n
      invariant forall v :: 0 <= v < n ==> inFlow[v] == InFlow(jumps[..j], v) && outFlow[v] == OutFlow(jumps[..j], v)
    {
      assert jumps[..j + 1][..j] == jumps[..j];
      var jmp := jumps[j];
      inFlow := inFlow[jmp.target := inFlow[jmp.target] + jmp.flow];
      outFlow := outFlow[jmp.source := outFlow[jmp.source] + jmp.flow];
      j := j + 1;
    }
    assert jumps[..j] == jumps;
  }

  /// The blocks a search from the entry over unmarked blocks marks are
  /// exactly the blocks the entry reaches.
  lemma {:induction false} ReachedIsReachable(jumps: seq<FlowJump>, entry: nat, visited: seq<bool>)
    requires entry < |visited|
    requires forall j :: 0 <= j < |jumps| ==> jumps[j].source < |visited| && jumps[j].target < |visited|
    requires forall v :: 0 <= v < |visited| && visited[v] ==> Reaches(jumps, entry, v)
    requires visited[entry]
    requires forall j :: 0 <= j < |jumps| && jumps[j].flow > 0 && visited[jumps[j].source] ==> visited[jumps[j].target]
    ensures forall v :: 0 <= v < |visited| ==> (visited[v] <==> Reaches(jumps, entry, v))
  {
    forall v | 0 <= v < |visited| && Reaches(jumps, entry, v) ensures visited[v] {
      var path :| IsPath(jumps, entry, v, path) && AllPositive(jumps, path);
      ClosedHoldsReached(jumps, visited, entry, v, path);
    }
  }

  // ----- Conservation implies global balance -----

  /// Sum of the flows of all jumps.
  function JumpTotal(jumps: seq<FlowJump>): int
  {
    if jumps == [] then 0 else JumpTotal(jumps[..|jumps| - 1]) + jumps[|jumps| - 1].flow
  }

  /// Sum of the out-flows of the first `k` blocks.
  function SumOut(jumps: seq<FlowJump>, k: nat): int
  {
    if k == 0 then 0 else SumOut(jumps, k - 1) + OutFlow(jumps, k - 1)
  }

  /// Sum of the in-flows of the first `k` blocks.
  function SumIn(jumps: seq<FlowJump>, k: nat): int
  {
    if k == 0 then 0 else SumIn(jumps, k - 1) + InFlow(jumps, k - 1)
  }

  /// One more jump adds its flow to the sums of the blocks holding its ends.
  lemma {:induction false} SumSnoc(jumps: seq<FlowJump>, x: FlowJump, k: nat)
    ensures SumOut(jumps + [x], k) == SumOut(jumps, k) + (if x.source < k then x.flow else 0)
    ensures SumIn(jumps + [x], k) == SumIn(jumps, k) + (if x.target < k then x.flow else 0)
  {
    if k > 0 {
      SumSnoc(jumps, x, k - 1);
      assert (jumps + [x])[..|jumps|] == jumps;
    }
  }

  /// Every jump leaves exactly one block and enters exactly one block.
  lemma {:induction false} SumsAreJumpTotal(jumps: seq<FlowJump>, n: nat)
    requires forall j :: 0 <= j < |jumps| ==> jumps[j].source < n && jumps[j].target < n
    ensures SumOut(jumps, n) == JumpTotal(jumps) && SumIn(jumps, n) == JumpTotal(jumps)
    decreases |jumps|
  {
    if jumps != [] {
      var init, last := jumps[..|jumps| - 1], jumps[|jumps| - 1];
      SumsAreJumpTotal(init, n);
      assert init + [last] == jumps;
      SumSnoc(init, last, n);
    } else {
      NoJumpsNoSums(n);
    }
  }

  lemma {:induction false} NoJumpsNoSums(k: nat)
    ensures SumOut([], k) == 0 && SumIn([], k) == 0
  {
    if k > 0 {
      NoJumpsNoSums(k - 1);
    }
  }

  /// Nothing enters an entry block, nothing leaves an exit block.
  lemma {:induction false} EntryExitFlows(jumps: seq<FlowJump>, b: nat)
    ensures IsEntry(jumps, b) ==> InFlow(jumps, b) == 0
    ensures IsExit(jumps, b) ==> OutFlow(jumps, b) == 0
    decreases |jumps|
  {
    if jumps != [] {
      EntryExitFlows(jumps[..|jumps| - 1], b);
    }
  }

  /// At a conserved block, its share of the entry total minus its share of
  /// the exit total is its out-flow minus its in-flow.
  lemma {:induction false} BlockNet(blocks: seq<FlowBlock>, jumps: seq<FlowJump>, b: nat)
    requires b < |blocks| && BlockConserved(blocks, jumps, b)
    ensures (if IsEntry(jumps, b) then blocks[b].flow else 0) -
            (if !IsEntry(jumps, b) && IsExit(jumps, b) then blocks[b].flow else 0)
            == OutFlow(jumps, b) - InFlow(jumps, b)
  {
    EntryExitFlows(jumps, b);
  }

  /// Under conservation, entries minus exits equals out-flow minus in-flow.
  lemma {:induction false} NetFlow(blocks: seq<FlowBlock>, jumps: seq<FlowJump>, k: nat)
    requires k <= |blocks| && ConservedUpTo(blocks, jumps, k)
    ensures EntryTotal(blocks, jumps, k) - ExitTotal(blocks, jumps, k) == SumOut(jumps, k) - SumIn(jumps, k)
  {
    if k > 0 {
      var b := k - 1;
      assert ConservedUpTo(blocks, jumps, b);
      NetFlow(blocks, jumps, b);
      BlockNet(blocks, jumps, b);
    }
  }

  /// Conservation at every block implies that the entries send out exactly
  /// what the exits take in.
  lemma {:induction false} ConservationImpliesBalance(blocks: seq<FlowBlock>, jumps: seq<FlowJump>, entry: nat)
    requires GraphOk(blocks, jumps, entry) && ConservedUpTo(blocks, jumps, |blocks|)
    ensures EntryTotal(blocks, jumps, |blocks|) == ExitTotal(blocks, jumps, |blocks|)
  {
    NetFlow(blocks, jumps, |blocks|);
    SumsAreJumpTotal(jumps, |blocks|);
  }
}
