// The control-flow graph that profile inference works on: blocks with an
// optional sample weight, jumps between blocks, and the flow values that
// inference computes for both.
module FlowGraph {

  /// A basic block. `weight` is its sample count; `dangling` marks a block
  /// without samples; `flow` is the inferred count.
  datatype FlowBlock = FlowBlock(weight: nat, dangling: bool, flow: int, hasSelfEdge: bool)

  /// A jump (CFG edge) between two blocks, identified by their indices.
  datatype FlowJump = FlowJump(source: nat, target: nat, flow: int, isUnlikely: bool)

  /// The indices of the jumps leaving block `b`, in jump order: the
  /// successor list of the block.
  function SuccJumps(jumps: seq<FlowJump>, b: nat): seq<nat>
  {
    if jumps == [] then []
    else
      var last := |jumps| - 1;
      SuccJumps(jumps[..last], b) + (if jumps[last].source == b then [last] else [])
  }

  /// The indices of the jumps entering block `b`, in jump order.
  function PredJumps(jumps: seq<FlowJump>, b: nat): seq<nat>
  {
    if jumps == [] then []
    else
      var last := |jumps| - 1;
      PredJumps(jumps[..last], b) + (if jumps[last].target == b then [last] else [])
  }

  /// The successor list holds exactly the jumps leaving `b`, in increasing order.
  lemma {:induction false} SuccJumpsSpec(jumps: seq<FlowJump>, b: nat)
    ensures forall k :: 0 <= k < |SuccJumps(jumps, b)| ==>
      SuccJumps(jumps, b)[k] < |jumps| && jumps[SuccJumps(jumps, b)[k]].source == b
    ensures forall j :: 0 <= j < |jumps| && jumps[j].source == b ==> j in SuccJumps(jumps, b)
    ensures forall k, m :: 0 <= k < m < |SuccJumps(jumps, b)| ==> SuccJumps(jumps, b)[k] < SuccJumps(jumps, b)[m]
    decreases |jumps|
  {
    if jumps != [] {
      SuccJumpsSpec(jumps[..|jumps| - 1], b);
    }
  }

  /// The predecessor list holds exactly the jumps entering `b`, in increasing order.
  lemma {:induction false} PredJumpsSpec(jumps: seq<FlowJump>, b: nat)
    ensures forall k :: 0 <= k < |PredJumps(jumps, b)| ==>
      PredJumps(jumps, b)[k] < |jumps| && jumps[PredJumps(jumps, b)[k]].target == b
    ensures forall j :: 0 <= j < |jumps| && jumps[j].target == b ==> j in PredJumps(jumps, b)
    ensures forall k, m :: 0 <= k < m < |PredJumps(jumps, b)| ==> PredJumps(jumps, b)[k] < PredJumps(jumps, b)[m]
    decreases |jumps|
  {
    if jumps != [] {
      PredJumpsSpec(jumps[..|jumps| - 1], b);
    }
  }

  /// An entry block has no predecessors.
  predicate IsEntry(jumps: seq<FlowJump>, b: nat)
  {
    forall j :: 0 <= j < |jumps| ==> jumps[j].target != b
  }

  /// An exit block has no successors.
  predicate IsExit(jumps: seq<FlowJump>, b: nat)
  {
    forall j :: 0 <= j < |jumps| ==> jumps[j].source != b
  }

  /// isEntry and isExit test for an empty predecessor or successor list.
  lemma {:induction false} EntryExitLists(jumps: seq<FlowJump>, b: nat)
    ensures IsEntry(jumps, b) <==> PredJumps(jumps, b) == []
    ensures IsExit(jumps, b) <==> SuccJumps(jumps, b) == []
  {
    PredJumpsSpec(jumps, b);
    SuccJumpsSpec(jumps, b);
    if PredJumps(jumps, b) != [] {
      assert jumps[PredJumps(jumps, b)[0]].target == b;
    }
    if SuccJumps(jumps, b) != [] {
      assert jumps[SuccJumps(jumps, b)[0]].source == b;
    }
  }

  /// Two jump lists that differ at most in flows.
  ghost predicate SameEnds(a: seq<FlowJump>, b: seq<FlowJump>)
  {
    |a| == |b| &&
    forall j :: 0 <= j < |a| ==> a[j].source == b[j].source && a[j].target == b[j].target && a[j].isUnlikely == b[j].isUnlikely
  }

  /// Successor and predecessor lists depend only on the jump ends.
  lemma {:induction false} AdjacencySameEnds(a: seq<FlowJump>, b: seq<FlowJump>, v: nat)
    requires SameEnds(a, b)
    ensures SuccJumps(a, v) == SuccJumps(b, v) && PredJumps(a, v) == PredJumps(b, v)
    decreases |a|
  {
    if a != [] {
      AdjacencySameEnds(a[..|a| - 1], b[..|b| - 1], v);
    }
  }

  /// Every block is an entry or not independently of flows; so is every exit.
  lemma {:induction false} EntryExitSameEnds(a: seq<FlowJump>, b: seq<FlowJump>, v: nat)
    requires SameEnds(a, b)
    ensures IsEntry(a, v) == IsEntry(b, v) && IsExit(a, v) == IsExit(b, v)
  {
    EntryExitLists(a, v);
    EntryExitLists(b, v);
    AdjacencySameEnds(a, b, v);
  }

  /// Blocks and jumps that form a graph: jump ends and the entry are block indices.
  ghost predicate GraphOk(blocks: seq<FlowBlock>, jumps: seq<FlowJump>, entry: nat)
  {
    entry < |blocks| &&
    forall j :: 0 <= j < |jumps| ==> jumps[j].source < |blocks| && jumps[j].target < |blocks|
  }

  /// A function under inference; `blocks` and `jumps` are updated in place.
  class FlowFunction {
    var blocks: seq<FlowBlock>
    var jumps: seq<FlowJump>
    var entry: nat

    ghost predicate Valid()
      reads this
    {
      GraphOk(blocks, jumps, entry)
    }

    constructor (blocks: seq<FlowBlock>, jumps: seq<FlowJump>, entry: nat)
      requires GraphOk(blocks, jumps, entry)
      ensures Valid() && this.blocks == blocks && this.jumps == jumps && this.entry == entry
    {
      this.blocks := blocks;
      this.jumps := jumps;
      this.entry := entry;
    }
  }
}
