// GraphChangeLog: after each pass over the logged function, give every block
// and instruction a small stable index the first time it is seen, and report
// what is new, what moved to another block and what disappeared.
module GraphChangeLog {
  import opened Util

  /// Blocks and instructions are identified by their address.
  type BlockId = nat
  type InstId = nat

  /// A basic block and its instructions, in order.
  datatype BasicBlock = BasicBlock(id: BlockId, insts: seq<InstId>)

  /// A function body: its blocks, in order.
  type Body = seq<BasicBlock>

  /// An IR function: a block appears once, an instruction belongs to one
  /// block and appears in it once. Stated block by block: each block and
  /// its instructions are new with respect to the blocks before it.
  predicate WellFormed(f: Body)
  {
    forall n :: 0 <= n < |f| ==> FreshAt(f, n)
  }

  /// Block `n` and its instructions are not among those of the blocks
  /// before it, and its instructions are distinct.
  predicate FreshAt(f: Body, n: nat)
    requires n < |f|
  {
    f[n].id !in BlockIds(f, n) &&
    (forall m :: 0 <= m < |f[n].insts| ==> f[n].insts[m] !in InstIds(f, n)) &&
    (forall m, k :: 0 <= m < k < |f[n].insts| ==> f[n].insts[m] != f[n].insts[k])
  }

  /// The blocks among the first `n` of the body.
  function BlockIds(f: Body, n: nat): set<BlockId>
    requires n <= |f|
  {
    set a | 0 <= a < n :: f[a].id
  }

  /// The instructions of the first `n` blocks of the body.
  function InstIds(f: Body, n: nat): set<InstId>
    requires n <= |f|
  {
    set a, m | 0 <= a < n && 0 <= m < |f[a].insts| :: f[a].insts[m]
  }

  /// One entry of the pass list: the how-manieth run of that pass it is.
  datatype LogPassInfo = LogPassInfo(instance: nat, name: string)

  /// A block's index and the last pass that saw it (0: not in the graph).
  datatype BlockInfo = BlockInfo(index: nat, passNumber: nat)

  /// An instruction's index, the index of its last known block, and the
  /// last pass that saw it (0: not in the graph).
  datatype InstructionInfo = InstructionInfo(index: nat, blockNumber: nat, passNumber: nat)

  /// The lines written to the log stream.
  datatype Event =
    | InPass(name: string)
    | InFinal
    | BlockNew(index: nat, block: BlockId)
    | BlockFinal(index: nat)
    | BlockDeleted(index: nat)
    | InstNew(index: nat, inst: InstId)
    | InstMoved(index: nat, from: nat, to: nat, inst: InstId)
    | InstFinal(index: nat, inst: InstId)
    | InstDeleted(index: nat)

  /// The number of runs of pass `name` in the list.
  function NameCount(passes: seq<LogPassInfo>, name: string): nat
  {
    if passes == [] then 0
    else NameCount(passes[..|passes| - 1], name) + (if passes[|passes| - 1].name == name then 1 else 0)
  }

  /// An entry that the last pass saw; a missing entry reads as one with
  /// pass number 0, as `Blocks[&BB]` creates it.
  predicate BlockTracked(m: map<BlockId, BlockInfo>, b: BlockId)
  {
    b in m && m[b].passNumber != 0
  }

  predicate InstTracked(m: map<InstId, InstructionInfo>, i: InstId)
  {
    i in m && m[i].passNumber != 0
  }

  function BlockPass(m: map<BlockId, BlockInfo>, b: BlockId): nat
  {
    if b in m then m[b].passNumber else 0
  }

  function InstPass(m: map<InstId, InstructionInfo>, i: InstId): nat
  {
    if i in m then m[i].passNumber else 0
  }

  /// A visited block: a tracked block keeps its index, an untracked one gets
  /// an index not below the counter as it was before the walk; a pass
  /// stamps its number on it, the final pass leaves the number as it was.
  predicate BlockVisited(before: map<BlockId, BlockInfo>, b: BlockId, now: BlockInfo, counter: nat, pass: Option<nat>)
  {
    (if BlockTracked(before, b) then now.index == before[b].index else counter <= now.index) &&
    now.passNumber == (if pass.Some? then pass.value else BlockPass(before, b))
  }

  /// A visited instruction: the same rule for its index and pass number,
  /// and its block is now the one it was found in.
  predicate InstVisited(before: map<InstId, InstructionInfo>, i: InstId, now: InstructionInfo, counter: nat, blockIndex: nat, pass: Option<nat>)
  {
    (if InstTracked(before, i) then now.index == before[i].index else counter <= now.index) &&
    now.blockNumber == blockIndex &&
    now.passNumber == (if pass.Some? then pass.value else InstPass(before, i))
  }

  /// A tracked instruction found in a block other than its recorded one.
  predicate Moved(before: map<InstId, InstructionInfo>, i: InstId, blockIndex: nat)
  {
    InstTracked(before, i) && before[i].blockNumber != blockIndex
  }

  /// A stale entry: seen by an earlier pass but not by pass `pn`.
  predicate Stale(passNumber: nat, pn: nat)
  {
    passNumber != 0 && passNumber != pn
  }

  predicate Increasing(s: seq<nat>)
  {
    forall i, j :: 0 <= i < j < |s| ==> s[i] < s[j]
  }

  predicate NonDecreasing(s: seq<nat>)
  {
    forall i, j :: 0 <= i < j < |s| ==> s[i] <= s[j]
  }

  /// Insert `x` into a sorted sequence.
  function InsertSorted(s: seq<nat>, x: nat): (r: seq<nat>)
    requires NonDecreasing(s)
    ensures NonDecreasing(r) && multiset(r) == multiset(s) + multiset{x}
    ensures |r| == |s| + 1 && (r[0] == x || (s != [] && r[0] == s[0]))
    decreases |s|
  {
    if s == [] || x <= s[0] then
      assert forall j :: 0 <= j < |s| ==> x <= s[0] <= s[j];
      [x] + s
    else
      var rest := InsertSorted(s[1..], x);
      assert s == [s[0]] + s[1..];
      assert forall j :: 0 <= j < |rest| ==> s[0] <= rest[0] <= rest[j];
      [s[0]] + rest
  }

  /// std::sort on the collected indices.
  method SortIndices(s: seq<nat>) returns (r: seq<nat>)
    ensures NonDecreasing(r) && multiset(r) == multiset(s)
  {
    r := [];
    var i := 0;
    while i < |s|
      invariant i <= |s| && NonDecreasing(r) && multiset(r) == multiset(s[..i])
    {
      assert s[..i + 1] == s[..i] + [s[i]];
      r := InsertSorted(r, s[i]);
      i := i + 1;
    }
    assert s[..i] == s;
  }

  /// Sorted indices that are all different are strictly increasing.
  lemma SortedDistinct(r: seq<nat>)
    requires NonDecreasing(r) && forall x :: multiset(r)[x] <= 1
    ensures Increasing(r)
  {
    forall i, j | 0 <= i < j < |r| ensures r[i] < r[j] {
      RepeatCounted(r, i, j);
    }
  }

  /// An element found at two positions occurs at least twice.
  lemma RepeatCounted(r: seq<nat>, i: nat, j: nat)
    requires i < j < |r|
    ensures r[i] == r[j] ==> multiset(r)[r[i]] >= 2
  {
    assert r == r[..i] + [r[i]] + r[i + 1..j] + [r[j]] + r[j + 1..];
  }

  /// A block table: indices below the counter, pass numbers at most the
  /// number of passes run, and `owner` maps each index back to its block,
  /// so that no two blocks share an index.
  predicate BlockTableValid(blocks: map<BlockId, BlockInfo>, owner: map<nat, BlockId>, blockNumber: nat, passCount: nat)
  {
    forall b :: b in blocks ==>
      blocks[b].index < blockNumber && blocks[b].passNumber <= passCount &&
      blocks[b].index in owner && owner[blocks[b].index] == b
  }

  /// An instruction table: the same, and every recorded block index is one
  /// given out.
  predicate InstTableValid(instructions: map<InstId, InstructionInfo>, owner: map<nat, InstId>, instructionNumber: nat, blockNumber: nat, passCount: nat)
  {
    forall i :: i in instructions ==>
      instructions[i].index < instructionNumber && instructions[i].blockNumber < blockNumber &&
      instructions[i].passNumber <= passCount &&
      instructions[i].index in owner && owner[instructions[i].index] == i
  }

  /// The pass list: each entry's instance is the number of runs of its
  /// pass up to it, and the instance map holds each pass's run count.
  predicate PassListValid(passes: seq<LogPassInfo>, passInstance: map<string, nat>)
  {
    (forall n :: n in passInstance ==> passInstance[n] == NameCount(passes, n)) &&
    (forall k :: 0 <= k < |passes| ==> passes[k].name in passInstance && passes[k].instance == NameCount(passes[..k + 1], passes[k].name))
  }

  /// Updating one block keeps the table valid when the block keeps its
  /// index or gets one not given out before.
  lemma BlockTableUpdate(blocks: map<BlockId, BlockInfo>, owner: map<nat, BlockId>, blockNumber: nat, passCount: nat,
                         b: BlockId, info: BlockInfo, blockNumber': nat)
    requires BlockTableValid(blocks, owner, blockNumber, passCount)
    requires blockNumber <= blockNumber' && info.index < blockNumber' && info.passNumber <= passCount
    requires (b in blocks && info.index == blocks[b].index) || blockNumber <= info.index
    ensures BlockTableValid(blocks[b := info], owner[info.index := b], blockNumber', passCount)
  {
  }

  /// Giving out more block indices keeps the instruction table valid.
  lemma InstTableMoreBlocks(instructions: map<InstId, InstructionInfo>, owner: map<nat, InstId>, instructionNumber: nat,
                            blockNumber: nat, passCount: nat, blockNumber': nat)
    requires InstTableValid(instructions, owner, instructionNumber, blockNumber, passCount) && blockNumber <= blockNumber'
    ensures InstTableValid(instructions, owner, instructionNumber, blockNumber', passCount)
  {
  }

  lemma InstTableUpdate(instructions: map<InstId, InstructionInfo>, owner: map<nat, InstId>, instructionNumber: nat,
                        blockNumber: nat, passCount: nat, i: InstId, info: InstructionInfo, instructionNumber': nat)
    requires InstTableValid(instructions, owner, instructionNumber, blockNumber, passCount)
    requires instructionNumber <= instructionNumber' && info.index < instructionNumber'
    requires info.blockNumber < blockNumber && info.passNumber <= passCount
    requires (i in instructions && info.index == instructions[i].index) || instructionNumber <= info.index
    ensures InstTableValid(instructions[i := info], owner[info.index := i], instructionNumber', blockNumber, passCount)
  {
  }

  /// No two blocks share an index.
  lemma BlockIndicesDistinct(blocks: map<BlockId, BlockInfo>, owner: map<nat, BlockId>, blockNumber: nat, passCount: nat, a: BlockId, b: BlockId)
    requires BlockTableValid(blocks, owner, blockNumber, passCount) && a in blocks && b in blocks && a != b
    ensures blocks[a].index != blocks[b].index
  {
  }

  lemma InstIndicesDistinct(instructions: map<InstId, InstructionInfo>, owner: map<nat, InstId>, instructionNumber: nat,
                             blockNumber: nat, passCount: nat, i: InstId, j: InstId)
    requires InstTableValid(instructions, owner, instructionNumber, blockNumber, passCount)
    requires i in instructions && j in instructions && i != j
    ensures instructions[i].index != instructions[j].index
  {
  }

  /// What a walk reports for a visited instruction: that it is new, a
  /// move, and in the final pass the instruction itself.
  predicate InstReported(before: map<InstId, InstructionInfo>, i: InstId, now: InstructionInfo, blockIndex: nat, pass: Option<nat>, events: seq<Event>)
  {
    (!InstTracked(before, i) ==> InstNew(now.index, i) in events) &&
    (Moved(before, i, blockIndex) ==> InstMoved(now.index, before[i].blockNumber, blockIndex, i) in events) &&
    (pass.None? ==> InstFinal(now.index, i) in events)
  }

  /// Every reported move is one: the instruction was tracked in another
  /// block, and its recorded block is now the reported destination.
  predicate MovesReal(before: map<InstId, InstructionInfo>, after: map<InstId, InstructionInfo>, events: seq<Event>)
  {
    forall k :: 0 <= k < |events| && events[k].InstMoved? ==>
      Moved(before, events[k].inst, events[k].to) && events[k].from == before[events[k].inst].blockNumber &&
      events[k].inst in after && after[events[k].inst].blockNumber == events[k].to
  }

  /// The lines a walk over the function writes: no pass header and no
  /// deletion.
  predicate WalkEvent(e: Event)
  {
    !e.InPass? && !e.InFinal? && !e.BlockDeleted? && !e.InstDeleted?
  }

  /// The events VisitInstruction writes for instruction `i` found in block
  /// `blockIndex`, given its entry before and after the visit.
  function InstEvents(before: map<InstId, InstructionInfo>, i: InstId, now: InstructionInfo, blockIndex: nat, pass: Option<nat>): seq<Event>
  {
    (if !InstTracked(before, i) then [InstNew(now.index, i)]
     else if Moved(before, i, blockIndex) then [InstMoved(now.index, before[i].blockNumber, blockIndex, i)]
     else []) +
    (if pass.None? then [InstFinal(now.index, i)] else [])
  }

  /// After visiting `insts` in a block with index `blockIndex`: the table
  /// `after` has an entry for each of them, visited, and the others as
  /// `before` had them.
  ghost predicate InstsTable(before: map<InstId, InstructionInfo>, after: map<InstId, InstructionInfo>, insts: seq<InstId>,
                             counter: nat, blockIndex: nat, pass: Option<nat>)
  {
    (forall i :: i in after <==> i in before || i in insts) &&
    (forall i :: i in before && i !in insts ==> after[i] == before[i]) &&
    (forall m :: 0 <= m < |insts| ==> InstVisited(before, insts[m], after[insts[m]], counter, blockIndex, pass))
  }

  /// The events of that visit report the moves, and in the final pass every
  /// instruction; no other move is reported.
  ghost predicate InstsReported(before: map<InstId, InstructionInfo>, after: map<InstId, InstructionInfo>, insts: seq<InstId>,
                                blockIndex: nat, pass: Option<nat>, events: seq<Event>)
  {
    (forall m :: 0 <= m < |insts| ==> insts[m] in after && InstReported(before, insts[m], after[insts[m]], blockIndex, pass, events)) &&
    MovesReal(before, after, events) &&
    (forall e :: e in events ==> WalkEvent(e) && (e.InstMoved? ==> e.inst in insts))
  }

  /// One more instruction visited, the `k`th of `insts`: the table.
  lemma InstsTableStep(before: map<InstId, InstructionInfo>, after: map<InstId, InstructionInfo>, insts: seq<InstId>, k: nat,
                       counter: nat, blockIndex: nat, pass: Option<nat>, after': map<InstId, InstructionInfo>, counterNow: nat)
    requires k < |insts| && insts[k] !in insts[..k]
    requires InstsTable(before, after, insts[..k], counter, blockIndex, pass) && counter <= counterNow
    requires after'.Keys == after.Keys + {insts[k]} && forall i :: i in after && i != insts[k] ==> after'[i] == after[i]
    requires InstVisited(after, insts[k], after'[insts[k]], counterNow, blockIndex, pass)
    ensures InstsTable(before, after', insts[..k + 1], counter, blockIndex, pass)
  {
    var done := insts[..k];
    var done' := insts[..k + 1];
    assert done' == done + [insts[k]];
    forall m | 0 <= m < |done'|
      ensures InstVisited(before, done'[m], after'[done'[m]], counter, blockIndex, pass)
    {
      if m < k {
        assert done'[m] == done[m];
      }
    }
  }

  /// The same step: the events.
  lemma InstsReportedStep(before: map<InstId, InstructionInfo>, after: map<InstId, InstructionInfo>, insts: seq<InstId>, k: nat,
                          blockIndex: nat, pass: Option<nat>, events: seq<Event>, after': map<InstId, InstructionInfo>)
    requires k < |insts| && insts[k] !in insts[..k]
    requires (insts[k] in after <==> insts[k] in before) && (insts[k] in after ==> after[insts[k]] == before[insts[k]])
    requires InstsReported(before, after, insts[..k], blockIndex, pass, events)
    requires after'.Keys == after.Keys + {insts[k]} && forall i :: i in after && i != insts[k] ==> after'[i] == after[i]
    requires after'[insts[k]].blockNumber == blockIndex
    ensures InstsReported(before, after', insts[..k + 1], blockIndex, pass,
      events + InstEvents(after, insts[k], after'[insts[k]], blockIndex, pass))
  {
    var x := insts[k];
    var more := InstEvents(after, x, after'[x], blockIndex, pass);
    var done := insts[..k];
    var done' := insts[..k + 1];
    assert done' == done + [x];
    forall e | e in events + more && e.InstMoved?
      ensures Moved(before, e.inst, e.to) && e.from == before[e.inst].blockNumber && e.inst in after' && after'[e.inst].blockNumber == e.to
    {
      if e in events {
        assert e.inst in done;
      }
    }
    forall m | 0 <= m < |done'|
      ensures done'[m] in after' && InstReported(before, done'[m], after'[done'[m]], blockIndex, pass, events + more)
    {
      if m < k {
        assert done'[m] == done[m];
      }
    }
  }

  /// Block lines written before the instructions' keep the report valid.
  lemma InstsReportedPrefix(before: map<InstId, InstructionInfo>, after: map<InstId, InstructionInfo>, insts: seq<InstId>,
                            blockIndex: nat, pass: Option<nat>, head: seq<Event>, events: seq<Event>)
    requires InstsReported(before, after, insts, blockIndex, pass, events)
    requires forall e :: e in head ==> WalkEvent(e) && !e.InstMoved?
    ensures InstsReported(before, after, insts, blockIndex, pass, head + events)
  {
  }

  /// A block table that changed in the entry of block `b` only, which it
  /// now has.
  ghost predicate BlockEntered(before: map<BlockId, BlockInfo>, after: map<BlockId, BlockInfo>, b: BlockId)
  {
    after.Keys == before.Keys + {b} && forall k :: k in before && k != b ==> after[k] == before[k]
  }

  /// Two tables that agree on every key outside `s`.
  ghost predicate AgreeOutside<K(!new), V>(before: map<K, V>, after: map<K, V>, s: set<K>)
  {
    forall k :: k !in s ==> (k in after <==> k in before) && (k in after ==> after[k] == before[k])
  }

  /// Instruction `m` of block `a`: visited, in the block that `blocks`
  /// records for it.
  predicate InstVisitedAt(before: map<InstId, InstructionInfo>, after: map<InstId, InstructionInfo>, f: Body, a: nat, m: nat,
                          counter: nat, blocks: map<BlockId, BlockInfo>, pass: Option<nat>)
    requires a < |f| && m < |f[a].insts|
  {
    f[a].id in blocks && f[a].insts[m] in after &&
    InstVisited(before, f[a].insts[m], after[f[a].insts[m]], counter, blocks[f[a].id].index, pass)
  }

  /// Instruction `m` of block `a`: reported as InstReported says.
  predicate InstReportedAt(before: map<InstId, InstructionInfo>, after: map<InstId, InstructionInfo>, f: Body, a: nat, m: nat,
                           blocks: map<BlockId, BlockInfo>, pass: Option<nat>, events: seq<Event>)
    requires a < |f| && m < |f[a].insts|
  {
    f[a].id in blocks && f[a].insts[m] in after &&
    InstReported(before, f[a].insts[m], after[f[a].insts[m]], blocks[f[a].id].index, pass, events)
  }

  /// Block `a`: reported when new and in the final pass.
  predicate BlockReportedAt(f: Body, a: nat, blocksBefore: map<BlockId, BlockInfo>, blocks: map<BlockId, BlockInfo>, pass: Option<nat>, events: seq<Event>)
    requires a < |f|
  {
    f[a].id in blocks &&
    (pass.None? ==> BlockFinal(blocks[f[a].id].index) in events) &&
    (!BlockTracked(blocksBefore, f[a].id) ==> BlockNew(blocks[f[a].id].index, f[a].id) in events)
  }

  /// After walking the first `n` blocks: the block table has an entry for
  /// each of them, visited, and the others as they were.
  ghost predicate BodyBlocks(before: map<BlockId, BlockInfo>, after: map<BlockId, BlockInfo>, f: Body, n: nat, counter: nat, pass: Option<nat>)
    requires n <= |f|
  {
    after.Keys == before.Keys + BlockIds(f, n) &&
    (forall b :: b in before && b !in BlockIds(f, n) ==> after[b] == before[b]) &&
    (forall a :: 0 <= a < n ==> f[a].id in after && BlockVisited(before, f[a].id, after[f[a].id], counter, pass))
  }

  /// The same for the instruction table: each instruction of those blocks
  /// visited, its block index that of its block in `blocks`.
  ghost predicate BodyInsts(before: map<InstId, InstructionInfo>, after: map<InstId, InstructionInfo>, f: Body, n: nat, counter: nat,
                            blocks: map<BlockId, BlockInfo>, pass: Option<nat>)
    requires n <= |f|
  {
    after.Keys == before.Keys + InstIds(f, n) &&
    (forall i :: i in before && i !in InstIds(f, n) ==> after[i] == before[i]) &&
    (forall a, m :: 0 <= a < n && 0 <= m < |f[a].insts| ==>
      InstVisitedAt(before, after, f, a, m, counter, blocks, pass))
  }

  /// The events of the walk over the first `n` blocks: every move of their
  /// instructions and no other, every new block, and in the final pass
  /// every block and instruction.
  ghost predicate BodyReported(before: map<InstId, InstructionInfo>, after: map<InstId, InstructionInfo>, f: Body, n: nat,
                               blocksBefore: map<BlockId, BlockInfo>, blocks: map<BlockId, BlockInfo>, pass: Option<nat>, events: seq<Event>)
    requires n <= |f|
  {
    (forall a, m :: 0 <= a < n && 0 <= m < |f[a].insts| ==>
      InstReportedAt(before, after, f, a, m, blocks, pass, events)) &&
    MovesReal(before, after, events) &&
    (forall e :: e in events ==> WalkEvent(e) && (e.InstMoved? ==> e.inst in InstIds(f, n))) &&
    (forall a :: 0 <= a < n ==> BlockReportedAt(f, a, blocksBefore, blocks, pass, events))
  }

  /// One more block walked: the block table.
  lemma BodyBlocksStep(before: map<BlockId, BlockInfo>, mid: map<BlockId, BlockInfo>, after: map<BlockId, BlockInfo>, f: Body, n: nat,
                       counter: nat, counterNow: nat, pass: Option<nat>)
    requires n < |f| && f[n].id !in BlockIds(f, n)
    requires BodyBlocks(before, mid, f, n, counter, pass) && counter <= counterNow
    requires BlockEntered(mid, after, f[n].id)
    requires BlockVisited(mid, f[n].id, after[f[n].id], counterNow, pass)
    ensures BodyBlocks(before, after, f, n + 1, counter, pass)
  {
    assert BlockIds(f, n + 1) == BlockIds(f, n) + {f[n].id};
  }

  /// One more block walked: the instruction table.
  lemma BodyInstsStep(before: map<InstId, InstructionInfo>, mid: map<InstId, InstructionInfo>, after: map<InstId, InstructionInfo>,
                      f: Body, n: nat, counter: nat, counterNow: nat,
                      blocks: map<BlockId, BlockInfo>, blocks': map<BlockId, BlockInfo>, pass: Option<nat>)
    requires n < |f| && f[n].id !in BlockIds(f, n)
    requires forall m :: 0 <= m < |f[n].insts| ==> f[n].insts[m] !in InstIds(f, n)
    requires BodyInsts(before, mid, f, n, counter, blocks, pass) && counter <= counterNow
    requires BlockEntered(blocks, blocks', f[n].id)
    requires InstsTable(mid, after, f[n].insts, counterNow, blocks'[f[n].id].index, pass)
    ensures BodyInsts(before, after, f, n + 1, counter, blocks', pass)
  {
    BodyInstsKeysStep(before, mid, after, f, n, counter, counterNow, blocks, blocks'[f[n].id].index, pass);
    BodyInstsVisitedStep(before, mid, after, f, n, counter, counterNow, blocks, blocks', pass);
  }

  /// The keys and the untouched entries of that step.
  lemma BodyInstsKeysStep(before: map<InstId, InstructionInfo>, mid: map<InstId, InstructionInfo>, after: map<InstId, InstructionInfo>,
                          f: Body, n: nat, counter: nat, counterNow: nat, blocks: map<BlockId, BlockInfo>, blockIndex: nat, pass: Option<nat>)
    requires n < |f|
    requires BodyInsts(before, mid, f, n, counter, blocks, pass)
    requires InstsTable(mid, after, f[n].insts, counterNow, blockIndex, pass)
    ensures after.Keys == before.Keys + InstIds(f, n + 1)
    ensures forall i :: i in before && i !in InstIds(f, n + 1) ==> after[i] == before[i]
  {
    InstIdsStep(f, n);
    forall i | i in before && i !in InstIds(f, n + 1) ensures after[i] == before[i] {
      assert i !in f[n].insts;
    }
  }

  /// The visited instructions of that step.
  lemma BodyInstsVisitedStep(before: map<InstId, InstructionInfo>, mid: map<InstId, InstructionInfo>, after: map<InstId, InstructionInfo>,
                             f: Body, n: nat, counter: nat, counterNow: nat,
                             blocks: map<BlockId, BlockInfo>, blocks': map<BlockId, BlockInfo>, pass: Option<nat>)
    requires n < |f| && f[n].id !in BlockIds(f, n)
    requires forall m :: 0 <= m < |f[n].insts| ==> f[n].insts[m] !in InstIds(f, n)
    requires BodyInsts(before, mid, f, n, counter, blocks, pass) && counter <= counterNow
    requires BlockEntered(blocks, blocks', f[n].id)
    requires InstsTable(mid, after, f[n].insts, counterNow, blocks'[f[n].id].index, pass)
    ensures forall a, m :: 0 <= a < n + 1 && 0 <= m < |f[a].insts| ==>
      InstVisitedAt(before, after, f, a, m, counter, blocks', pass)
  {
    BodyInstsEarlier(before, mid, after, f, n, counter, counterNow, blocks, blocks', pass);
    BodyInstsLast(before, mid, after, f, n, counter, counterNow, blocks, blocks', pass);
    forall a, m | 0 <= a < n + 1 && 0 <= m < |f[a].insts|
      ensures InstVisitedAt(before, after, f, a, m, counter, blocks', pass)
    {
      if a == n {
        assert f[a].insts[m] == f[n].insts[m] && f[n].id in blocks'.Keys;
      }
    }
  }

  /// The instructions of the earlier blocks keep their entries.
  lemma BodyInstsEarlier(before: map<InstId, InstructionInfo>, mid: map<InstId, InstructionInfo>, after: map<InstId, InstructionInfo>,
                         f: Body, n: nat, counter: nat, counterNow: nat,
                         blocks: map<BlockId, BlockInfo>, blocks': map<BlockId, BlockInfo>, pass: Option<nat>)
    requires n < |f| && f[n].id !in BlockIds(f, n)
    requires forall m :: 0 <= m < |f[n].insts| ==> f[n].insts[m] !in InstIds(f, n)
    requires BodyInsts(before, mid, f, n, counter, blocks, pass)
    requires BlockEntered(blocks, blocks', f[n].id)
    requires InstsTable(mid, after, f[n].insts, counterNow, blocks'[f[n].id].index, pass)
    ensures forall a, m :: 0 <= a < n && 0 <= m < |f[a].insts| ==>
      InstVisitedAt(before, after, f, a, m, counter, blocks', pass)
  {
    forall a, m | 0 <= a < n && 0 <= m < |f[a].insts|
      ensures InstVisitedAt(before, after, f, a, m, counter, blocks', pass)
    {
      BodyInstEarlier(before, mid, after, f, n, counter, counterNow, blocks, blocks', pass, a, m);
    }
  }

  lemma BodyInstEarlier(before: map<InstId, InstructionInfo>, mid: map<InstId, InstructionInfo>, after: map<InstId, InstructionInfo>,
                        f: Body, n: nat, counter: nat, counterNow: nat,
                        blocks: map<BlockId, BlockInfo>, blocks': map<BlockId, BlockInfo>, pass: Option<nat>, a: nat, m: nat)
    requires n < |f| && f[n].id !in BlockIds(f, n) && a < n && m < |f[a].insts|
    requires forall m :: 0 <= m < |f[n].insts| ==> f[n].insts[m] !in InstIds(f, n)
    requires BodyInsts(before, mid, f, n, counter, blocks, pass)
    requires BlockEntered(blocks, blocks', f[n].id)
    requires InstsTable(mid, after, f[n].insts, counterNow, blocks'[f[n].id].index, pass)
    ensures InstVisitedAt(before, after, f, a, m, counter, blocks', pass)
  {
    assert f[a].id in BlockIds(f, n);
    assert f[a].insts[m] in InstIds(f, n);
    assert f[a].insts[m] !in f[n].insts;
    assert InstVisitedAt(before, mid, f, a, m, counter, blocks, pass);
  }

  /// The instructions of block `n` are visited from the entries they had
  /// before the walk.
  lemma BodyInstsLast(before: map<InstId, InstructionInfo>, mid: map<InstId, InstructionInfo>, after: map<InstId, InstructionInfo>,
                      f: Body, n: nat, counter: nat, counterNow: nat,
                      blocks: map<BlockId, BlockInfo>, blocks': map<BlockId, BlockInfo>, pass: Option<nat>)
    requires n < |f|
    requires forall m :: 0 <= m < |f[n].insts| ==> f[n].insts[m] !in InstIds(f, n)
    requires BodyInsts(before, mid, f, n, counter, blocks, pass) && counter <= counterNow
    requires BlockEntered(blocks, blocks', f[n].id)
    requires InstsTable(mid, after, f[n].insts, counterNow, blocks'[f[n].id].index, pass)
    ensures forall m :: 0 <= m < |f[n].insts| ==>
      InstVisitedAt(before, after, f, n, m, counter, blocks', pass)
  {
    forall m | 0 <= m < |f[n].insts|
      ensures InstVisitedAt(before, after, f, n, m, counter, blocks', pass)
    {
      var x := f[n].insts[m];
      assert x !in InstIds(f, n);
      assert x in mid <==> x in before;
    }
  }

  lemma InstIdsStep(f: Body, n: nat)
    requires n < |f|
    ensures InstIds(f, n + 1) == InstIds(f, n) + set m | 0 <= m < |f[n].insts| :: f[n].insts[m]
    ensures forall x :: x in f[n].insts <==> x in set m | 0 <= m < |f[n].insts| :: f[n].insts[m]
  {
    var s := set m | 0 <= m < |f[n].insts| :: f[n].insts[m];
    forall x | x in f[n].insts ensures x in s {
      var m :| 0 <= m < |f[n].insts| && f[n].insts[m] == x;
    }
  }

  /// One more block walked: the events.
  lemma BodyReportedStep(before: map<InstId, InstructionInfo>, mid: map<InstId, InstructionInfo>, after: map<InstId, InstructionInfo>,
                         f: Body, n: nat, counter: nat, blocksBefore: map<BlockId, BlockInfo>,
                         blocks: map<BlockId, BlockInfo>, blocks': map<BlockId, BlockInfo>, pass: Option<nat>, events: seq<Event>, more: seq<Event>)
    requires n < |f| && f[n].id !in BlockIds(f, n)
    requires forall m :: 0 <= m < |f[n].insts| ==> f[n].insts[m] !in InstIds(f, n)
    requires AgreeOutside(before, mid, InstIds(f, n))
    requires BodyReported(before, mid, f, n, blocksBefore, blocks, pass, events)
    requires BlockEntered(blocks, blocks', f[n].id)
    requires BlockTracked(blocks, f[n].id) == BlockTracked(blocksBefore, f[n].id)
    requires mid.Keys <= after.Keys && forall i :: i in mid && i !in f[n].insts ==> after[i] == mid[i]
    requires InstsReported(mid, after, f[n].insts, blocks'[f[n].id].index, pass, more)
    requires pass.None? ==> BlockFinal(blocks'[f[n].id].index) in more
    requires !BlockTracked(blocks, f[n].id) ==> BlockNew(blocks'[f[n].id].index, f[n].id) in more
    ensures BodyReported(before, after, f, n + 1, blocksBefore, blocks', pass, events + more)
  {
    InstIdsStep(f, n);
    var all := events + more;
    forall k | 0 <= k < |all| && all[k].InstMoved?
      ensures Moved(before, all[k].inst, all[k].to) && all[k].from == before[all[k].inst].blockNumber &&
              all[k].inst in after && after[all[k].inst].blockNumber == all[k].to
    {
      if k < |events| {
        assert all[k] == events[k] && events[k] in events;
        assert events[k].inst in InstIds(f, n);
        assert events[k].inst !in f[n].insts;
      } else {
        var j := k - |events|;
        assert all[k] == more[j] && more[j] in more;
        assert more[j].inst in f[n].insts;
        assert more[j].inst !in InstIds(f, n);
      }
    }
    forall e | e in all ensures WalkEvent(e) && (e.InstMoved? ==> e.inst in InstIds(f, n + 1)) {
    }
    forall a, m | 0 <= a < n + 1 && 0 <= m < |f[a].insts|
      ensures InstReportedAt(before, after, f, a, m, blocks', pass, all)
    {
      if a < n {
        BodyReportedEarlier(before, mid, after, f, n, blocksBefore, blocks, blocks', pass, events, more, a, m);
      } else {
        var x := f[n].insts[m];
        assert x !in InstIds(f, n);
        assert InstReported(mid, x, after[x], blocks'[f[n].id].index, pass, more);
      }
    }
    forall a | 0 <= a < n + 1
      ensures BlockReportedAt(f, a, blocksBefore, blocks', pass, all)
    {
      if a < n {
        assert f[a].id in BlockIds(f, n);
        assert BlockReportedAt(f, a, blocksBefore, blocks, pass, events);
      }
    }
  }

  lemma BodyReportedEarlier(before: map<InstId, InstructionInfo>, mid: map<InstId, InstructionInfo>, after: map<InstId, InstructionInfo>,
                            f: Body, n: nat, blocksBefore: map<BlockId, BlockInfo>,
                            blocks: map<BlockId, BlockInfo>, blocks': map<BlockId, BlockInfo>, pass: Option<nat>, events: seq<Event>, more: seq<Event>,
                            a: nat, m: nat)
    requires n < |f| && f[n].id !in BlockIds(f, n) && a < n && m < |f[a].insts|
    requires forall m :: 0 <= m < |f[n].insts| ==> f[n].insts[m] !in InstIds(f, n)
    requires BodyReported(before, mid, f, n, blocksBefore, blocks, pass, events)
    requires BlockEntered(blocks, blocks', f[n].id)
    requires mid.Keys <= after.Keys && forall i :: i in mid && i !in f[n].insts ==> after[i] == mid[i]
    ensures InstReportedAt(before, after, f, a, m, blocks', pass, events + more)
  {
    assert f[a].id in BlockIds(f, n);
    assert f[a].insts[m] in InstIds(f, n);
    assert f[a].insts[m] !in f[n].insts;
    assert InstReportedAt(before, mid, f, a, m, blocks, pass, events);
  }

  /// What walking block `b` does: its entry is the only block entry that
  /// changes, and it is visited; its instructions are visited and
  /// reported; the block itself is reported when new and in the final pass.
  ghost predicate BlockWalked(b: BasicBlock, pass: Option<nat>,
                              blocks: map<BlockId, BlockInfo>, blocks': map<BlockId, BlockInfo>, blockCounter: nat,
                              insts: map<InstId, InstructionInfo>, insts': map<InstId, InstructionInfo>, instCounter: nat, events: seq<Event>)
  {
    BlockEntered(blocks, blocks', b.id) &&
    BlockVisited(blocks, b.id, blocks'[b.id], blockCounter, pass) &&
    InstsTable(insts, insts', b.insts, instCounter, blocks'[b.id].index, pass) &&
    InstsReported(insts, insts', b.insts, blocks'[b.id].index, pass, events) &&
    (pass.None? ==> BlockFinal(blocks'[b.id].index) in events) &&
    (!BlockTracked(blocks, b.id) ==> BlockNew(blocks'[b.id].index, b.id) in events)
  }

  /// A table with the counter that gives out its indices.
  datatype BlockTable = BlockTable(entries: map<BlockId, BlockInfo>, next: nat)
  datatype InstTable = InstTable(entries: map<InstId, InstructionInfo>, next: nat)

  /// The instruction table after a visit, and the lines written.
  datatype InstsDone = InstsDone(table: InstTable, events: seq<Event>)

  /// The block table after a block's entry, the block's index, and the
  /// lines written.
  datatype EntryDone = EntryDone(table: BlockTable, index: nat, events: seq<Event>)

  /// Both tables after a walk, and the lines written.
  datatype Walk = Walk(blocks: BlockTable, insts: InstTable, events: seq<Event>)

  /// Visiting instruction `i` in the block with index `blockIndex`: an
  /// untracked instruction gets the next index and is new; a tracked one
  /// found in another block is moved; a pass stamps its number; the final
  /// pass reports the instruction.
  function VisitInst(t: InstTable, i: InstId, blockIndex: nat, pass: Option<nat>): InstsDone
  {
    var info := if i in t.entries then t.entries[i] else InstructionInfo(0, 0, 0);
    var info' :=
      if info.passNumber == 0 then info.(index := t.next, blockNumber := blockIndex)
      else info.(blockNumber := blockIndex);
    var info'' := info'.(passNumber := if pass.Some? then pass.value else info'.passNumber);
    var next := if info.passNumber == 0 then t.next + 1 else t.next;
    var events :=
      (if info.passNumber == 0 then [InstNew(info''.index, i)]
       else if info.blockNumber != blockIndex then [InstMoved(info.index, info.blockNumber, blockIndex, i)]
       else []) +
      (if pass.None? then [InstFinal(info''.index, i)] else []);
    InstsDone(InstTable(t.entries[i := info''], next), events)
  }

  /// Visiting an instruction changes its entry only, which it visits,
  /// and writes InstEvents.
  lemma VisitInstSpec(t: InstTable, i: InstId, blockIndex: nat, pass: Option<nat>)
    ensures var r := VisitInst(t, i, blockIndex, pass);
      r.table.entries.Keys == t.entries.Keys + {i} &&
      (forall j :: j in t.entries && j != i ==> r.table.entries[j] == t.entries[j]) &&
      InstVisited(t.entries, i, r.table.entries[i], t.next, blockIndex, pass) && t.next <= r.table.next &&
      r.events == InstEvents(t.entries, i, r.table.entries[i], blockIndex, pass)
  {
  }

  /// Visiting the first `k` instructions of `insts`, in order.
  function InstsWalk(t: InstTable, insts: seq<InstId>, k: nat, blockIndex: nat, pass: Option<nat>): (r: InstsDone)
    requires k <= |insts|
    ensures t.next <= r.table.next
  {
    if k == 0 then InstsDone(t, [])
    else
      var w := InstsWalk(t, insts, k - 1, blockIndex, pass);
      var v := VisitInst(w.table, insts[k - 1], blockIndex, pass);
      InstsDone(v.table, w.events + v.events)
  }

  /// A block's own entry: an untracked block gets the next index and is
  /// new; a pass stamps its number; the final pass reports the block.
  function BlockEntry(t: BlockTable, b: BlockId, pass: Option<nat>): EntryDone
  {
    var info := if b in t.entries then t.entries[b] else BlockInfo(0, 0);
    var info' := if info.passNumber == 0 then info.(index := t.next) else info;
    var info'' := info'.(passNumber := if pass.Some? then pass.value else info'.passNumber);
    var next := if info.passNumber == 0 then t.next + 1 else t.next;
    EntryDone(BlockTable(t.entries[b := info''], next), info''.index,
      (if info.passNumber == 0 then [BlockNew(info''.index, b)] else []) +
      (if pass.None? then [BlockFinal(info''.index)] else []))
  }

  /// Entering a block changes its entry only, which it visits, and
  /// writes the new-block line when it was untracked and the final-pass
  /// line in the final pass.
  lemma BlockEntrySpec(t: BlockTable, b: BlockId, pass: Option<nat>)
    ensures var r := BlockEntry(t, b, pass);
      BlockEntered(t.entries, r.table.entries, b) && r.index == r.table.entries[b].index &&
      BlockVisited(t.entries, b, r.table.entries[b], t.next, pass) && t.next <= r.table.next &&
      r.events == (if BlockTracked(t.entries, b) then [] else [BlockNew(r.index, b)]) + (if pass.None? then [BlockFinal(r.index)] else [])
  {
  }

  /// Walking one block: its entry, then its instructions in order.
  function BlockWalk(bt: BlockTable, it: InstTable, b: BasicBlock, pass: Option<nat>): (r: Walk)
    ensures bt.next <= r.blocks.next && it.next <= r.insts.next
  {
    var e := BlockEntry(bt, b.id, pass);
    var v := InstsWalk(it, b.insts, |b.insts|, e.index, pass);
    Walk(e.table, v.table, e.events + v.events)
  }

  /// Walking the first `n` blocks of the function, in order.
  function BodyWalk(bt: BlockTable, it: InstTable, f: Body, n: nat, pass: Option<nat>): (r: Walk)
    requires n <= |f|
    ensures bt.next <= r.blocks.next && it.next <= r.insts.next
  {
    if n == 0 then Walk(bt, it, [])
    else
      var w := BodyWalk(bt, it, f, n - 1, pass);
      var v := BlockWalk(w.blocks, w.insts, f[n - 1], pass);
      Walk(v.blocks, v.insts, w.events + v.events)
  }

  /// Visiting distinct instructions visits and reports each of them and
  /// changes no other entry.
  lemma {:induction false} InstsWalkSpec(t: InstTable, insts: seq<InstId>, k: nat, blockIndex: nat, pass: Option<nat>)
    requires k <= |insts| && forall m, n :: 0 <= m < n < |insts| ==> insts[m] != insts[n]
    ensures InstsTable(t.entries, InstsWalk(t, insts, k, blockIndex, pass).table.entries, insts[..k], t.next, blockIndex, pass)
    ensures InstsReported(t.entries, InstsWalk(t, insts, k, blockIndex, pass).table.entries, insts[..k], blockIndex, pass,
                          InstsWalk(t, insts, k, blockIndex, pass).events)
  {
    if k > 0 {
      var w := InstsWalk(t, insts, k - 1, blockIndex, pass);
      var v := VisitInst(w.table, insts[k - 1], blockIndex, pass);
      VisitInstSpec(w.table, insts[k - 1], blockIndex, pass);
      InstsWalkSpec(t, insts, k - 1, blockIndex, pass);
      assert insts[k - 1] !in insts[..k - 1];
      InstsTableStep(t.entries, w.table.entries, insts, k - 1, t.next, blockIndex, pass, v.table.entries, w.table.next);
      InstsReportedStep(t.entries, w.table.entries, insts, k - 1, blockIndex, pass, w.events, v.table.entries);
    }
  }

  /// Walking a block whose instructions are distinct does what
  /// BlockWalked says.
  lemma BlockWalkSpec(bt: BlockTable, it: InstTable, b: BasicBlock, pass: Option<nat>)
    requires forall m, n :: 0 <= m < n < |b.insts| ==> b.insts[m] != b.insts[n]
    ensures BlockWalked(b, pass, bt.entries, BlockWalk(bt, it, b, pass).blocks.entries, bt.next,
                        it.entries, BlockWalk(bt, it, b, pass).insts.entries, it.next, BlockWalk(bt, it, b, pass).events)
  {
    var e := BlockEntry(bt, b.id, pass);
    var v := InstsWalk(it, b.insts, |b.insts|, e.index, pass);
    BlockEntrySpec(bt, b.id, pass);
    InstsWalkSpec(it, b.insts, |b.insts|, e.index, pass);
    assert b.insts[..|b.insts|] == b.insts;
    InstsReportedPrefix(it.entries, v.table.entries, b.insts, e.index, pass, e.events, v.events);
  }

  /// Walking a well-formed function visits each of its blocks and
  /// changes no other block entry.
  lemma BodyBlocksSpec(bt: BlockTable, it: InstTable, f: Body, n: nat, pass: Option<nat>)
    requires n <= |f| && WellFormed(f)
    ensures BodyBlocks(bt.entries, BodyWalk(bt, it, f, n, pass).blocks.entries, f, n, bt.next, pass)
  {
    BodyBlocksInduction(bt, it, f, n, pass, BodyWalk(bt, it, f, n, pass));
  }

  /// The same, by induction on `n`, for the walk `w` over the first `n`
  /// blocks.
  lemma {:induction false} BodyBlocksInduction(bt: BlockTable, it: InstTable, f: Body, n: nat, pass: Option<nat>, w: Walk)
    requires n <= |f| && WellFormed(f) && w == BodyWalk(bt, it, f, n, pass)
    ensures BodyBlocks(bt.entries, w.blocks.entries, f, n, bt.next, pass)
  {
    if n > 0 {
      var u := BodyWalk(bt, it, f, n - 1, pass);
      var v := BlockWalk(u.blocks, u.insts, f[n - 1], pass);
      assert w == Walk(v.blocks, v.insts, u.events + v.events);
      BodyBlocksInduction(bt, it, f, n - 1, pass, u);
      BodyBlocksNext(bt, it, f, n, pass, u, v);
    }
  }

  /// One more block walked, the `n`th, keeps BodyBlocks: `w` is the walk
  /// over the blocks before it and `v` the walk over it.
  lemma BodyBlocksNext(bt: BlockTable, it: InstTable, f: Body, n: nat, pass: Option<nat>, w: Walk, v: Walk)
    requires 0 < n <= |f| && WellFormed(f)
    requires BodyBlocks(bt.entries, w.blocks.entries, f, n - 1, bt.next, pass) && bt.next <= w.blocks.next
    requires v == BlockWalk(w.blocks, w.insts, f[n - 1], pass)
    ensures BodyBlocks(bt.entries, v.blocks.entries, f, n, bt.next, pass)
  {
    var e := BlockEntry(w.blocks, f[n - 1].id, pass);
    BlockEntrySpec(w.blocks, f[n - 1].id, pass);
    assert v.blocks == e.table;
    assert FreshAt(f, n - 1);
    BodyBlocksStep(bt.entries, w.blocks.entries, e.table.entries, f, n - 1, bt.next, w.blocks.next, pass);
  }

  /// Walking a well-formed function visits each of its instructions, in
  /// the block it was found in, and changes no other instruction entry.
  lemma BodyInstsSpec(bt: BlockTable, it: InstTable, f: Body, n: nat, pass: Option<nat>)
    requires n <= |f| && WellFormed(f)
    ensures BodyInsts(it.entries, BodyWalk(bt, it, f, n, pass).insts.entries, f, n, it.next, BodyWalk(bt, it, f, n, pass).blocks.entries, pass)
  {
    BodyInstsInduction(bt, it, f, n, pass, BodyWalk(bt, it, f, n, pass));
  }

  /// The same, by induction on `n`, for the walk `w` over the first `n`
  /// blocks.
  lemma {:induction false} BodyInstsInduction(bt: BlockTable, it: InstTable, f: Body, n: nat, pass: Option<nat>, w: Walk)
    requires n <= |f| && WellFormed(f) && w == BodyWalk(bt, it, f, n, pass)
    ensures BodyInsts(it.entries, w.insts.entries, f, n, it.next, w.blocks.entries, pass)
  {
    if n > 0 {
      var u := BodyWalk(bt, it, f, n - 1, pass);
      var v := BlockWalk(u.blocks, u.insts, f[n - 1], pass);
      assert w == Walk(v.blocks, v.insts, u.events + v.events);
      BodyInstsInduction(bt, it, f, n - 1, pass, u);
      BodyInstsNext(bt, it, f, n, pass, u, v);
    }
  }

  /// One more block walked, the `n`th, keeps BodyInsts: `w` is the walk
  /// over the blocks before it and `v` the walk over it.
  lemma BodyInstsNext(bt: BlockTable, it: InstTable, f: Body, n: nat, pass: Option<nat>, w: Walk, v: Walk)
    requires 0 < n <= |f| && WellFormed(f)
    requires BodyInsts(it.entries, w.insts.entries, f, n - 1, it.next, w.blocks.entries, pass) && it.next <= w.insts.next
    requires v == BlockWalk(w.blocks, w.insts, f[n - 1], pass)
    ensures BodyInsts(it.entries, v.insts.entries, f, n, it.next, v.blocks.entries, pass)
  {
    var b := f[n - 1];
    var e := BlockEntry(w.blocks, b.id, pass);
    var x := InstsWalk(w.insts, b.insts, |b.insts|, e.index, pass);
    BlockEntrySpec(w.blocks, b.id, pass);
    assert v.blocks == e.table && v.insts == x.table;
    assert FreshAt(f, n - 1);
    InstsWalkSpec(w.insts, b.insts, |b.insts|, e.index, pass);
    assert b.insts[..|b.insts|] == b.insts;
    BodyInstsStep(it.entries, w.insts.entries, x.table.entries, f, n - 1, it.next, w.insts.next, w.blocks.entries, e.table.entries, pass);
  }

  /// Instruction entries outside the walked blocks are as they were.
  lemma BodyInstsOutside(bt: BlockTable, it: InstTable, f: Body, n: nat, pass: Option<nat>, w: Walk)
    requires n <= |f| && WellFormed(f) && w == BodyWalk(bt, it, f, n, pass)
    ensures AgreeOutside(it.entries, w.insts.entries, InstIds(f, n))
  {
    BodyInstsInduction(bt, it, f, n, pass, w);
  }

  /// Block entries outside the walked blocks are as they were.
  lemma BodyBlocksOutside(bt: BlockTable, it: InstTable, f: Body, n: nat, pass: Option<nat>, w: Walk)
    requires n <= |f| && WellFormed(f) && w == BodyWalk(bt, it, f, n, pass)
    ensures AgreeOutside(bt.entries, w.blocks.entries, BlockIds(f, n))
  {
    BodyBlocksInduction(bt, it, f, n, pass, w);
  }

  /// What walking one block reports, and the instruction entries it leaves.
  lemma BlockWalkReported(bt: BlockTable, it: InstTable, b: BasicBlock, pass: Option<nat>)
    requires forall m, n :: 0 <= m < n < |b.insts| ==> b.insts[m] != b.insts[n]
    ensures var v := BlockWalk(bt, it, b, pass);
      BlockEntered(bt.entries, v.blocks.entries, b.id) &&
      it.entries.Keys <= v.insts.entries.Keys && (forall i :: i in it.entries && i !in b.insts ==> v.insts.entries[i] == it.entries[i]) &&
      InstsReported(it.entries, v.insts.entries, b.insts, v.blocks.entries[b.id].index, pass, v.events) &&
      (pass.None? ==> BlockFinal(v.blocks.entries[b.id].index) in v.events) &&
      (!BlockTracked(bt.entries, b.id) ==> BlockNew(v.blocks.entries[b.id].index, b.id) in v.events)
  {
    BlockWalkSpec(bt, it, b, pass);
  }

  /// Walking a well-formed function reports what BodyReported says.
  lemma BodyReportedSpec(bt: BlockTable, it: InstTable, f: Body, n: nat, pass: Option<nat>)
    requires n <= |f| && WellFormed(f)
    ensures BodyReported(it.entries, BodyWalk(bt, it, f, n, pass).insts.entries, f, n, bt.entries,
                         BodyWalk(bt, it, f, n, pass).blocks.entries, pass, BodyWalk(bt, it, f, n, pass).events)
  {
    BodyReportedInduction(bt, it, f, n, pass, BodyWalk(bt, it, f, n, pass));
  }

  /// The same, by induction on `n`, for the walk `w` over the first `n`
  /// blocks.
  lemma {:induction false} BodyReportedInduction(bt: BlockTable, it: InstTable, f: Body, n: nat, pass: Option<nat>, w: Walk)
    requires n <= |f| && WellFormed(f) && w == BodyWalk(bt, it, f, n, pass)
    ensures BodyReported(it.entries, w.insts.entries, f, n, bt.entries, w.blocks.entries, pass, w.events)
  {
    if n > 0 {
      var u := BodyWalk(bt, it, f, n - 1, pass);
      var v := BlockWalk(u.blocks, u.insts, f[n - 1], pass);
      assert w == Walk(v.blocks, v.insts, u.events + v.events);
      BodyInstsOutside(bt, it, f, n - 1, pass, u);
      BodyBlocksOutside(bt, it, f, n - 1, pass, u);
      BodyReportedInduction(bt, it, f, n - 1, pass, u);
      BodyReportedNext(bt, it, f, n, pass, u, v);
    }
  }

  /// One more block walked, the `n`th, keeps BodyReported: `w` is the walk
  /// over the blocks before it and `v` the walk over it.
  lemma BodyReportedNext(bt: BlockTable, it: InstTable, f: Body, n: nat, pass: Option<nat>, w: Walk, v: Walk)
    requires 0 < n <= |f| && WellFormed(f)
    requires AgreeOutside(it.entries, w.insts.entries, InstIds(f, n - 1))
    requires AgreeOutside(bt.entries, w.blocks.entries, BlockIds(f, n - 1))
    requires BodyReported(it.entries, w.insts.entries, f, n - 1, bt.entries, w.blocks.entries, pass, w.events)
    requires v == BlockWalk(w.blocks, w.insts, f[n - 1], pass)
    ensures BodyReported(it.entries, v.insts.entries, f, n, bt.entries, v.blocks.entries, pass, w.events + v.events)
  {
    var b := f[n - 1];
    assert FreshAt(f, n - 1);
    BlockWalkReported(w.blocks, w.insts, b, pass);
    BodyReportedStep(it.entries, w.insts.entries, v.insts.entries, f, n - 1, it.next, bt.entries, w.blocks.entries, v.blocks.entries,
                     pass, w.events, v.events);
  }

  /// No index collected twice.
  predicate NoRepeats(s: seq<nat>)
  {
    forall i, j :: 0 <= i < j < |s| ==> s[i] != s[j]
  }

  /// Indices collected once each occur once in the multiset.
  lemma {:induction false} NoRepeatsCounted(s: seq<nat>)
    requires NoRepeats(s)
    ensures forall x :: multiset(s)[x] <= 1
  {
    if s != [] {
      var init := s[..|s| - 1];
      assert s == init + [s[|s| - 1]];
      assert NoRepeats(init);
      NoRepeatsCounted(init);
      assert s[|s| - 1] !in init;
    }
  }

  /// The members of `s` below `k`, in increasing order.
  function IndicesBelow(s: set<nat>, k: nat): (r: seq<nat>)
    ensures Increasing(r) && forall x :: x in r <==> x in s && x < k
  {
    if k == 0 then []
    else
      var r := IndicesBelow(s, k - 1);
      if k - 1 in s then
        assert forall i :: 0 <= i < |r| ==> r[i] < k - 1 by {
          forall i | 0 <= i < |r| ensures r[i] < k - 1 {
            assert r[i] in r;
          }
        }
        r + [k - 1]
      else r
  }

  /// Two increasing sequences with the same members are equal: sorting
  /// distinct indices leaves one possible order.
  lemma {:induction false} IncreasingUnique(a: seq<nat>, b: seq<nat>)
    requires Increasing(a) && Increasing(b) && forall x :: x in a <==> x in b
    ensures a == b
    decreases |a|
  {
    if a == [] {
      assert forall i :: 0 <= i < |b| ==> b[i] in b;
    } else {
      assert b != [] by {
        assert a[0] in b;
      }
      IncreasingHead(a);
      IncreasingHead(b);
      assert a[0] == b[0] by {
        assert a[0] in b && b[0] in a;
      }
      IncreasingUnique(a[1..], b[1..]);
      assert a == [a[0]] + a[1..] && b == [b[0]] + b[1..];
    }
  }

  /// The head of an increasing sequence is its least member, and its
  /// tail holds the other members.
  lemma IncreasingHead(a: seq<nat>)
    requires Increasing(a) && a != []
    ensures forall x :: x in a ==> a[0] <= x
    ensures forall x :: x in a[1..] <==> x in a && x != a[0]
  {
    forall x | x in a ensures a[0] <= x {
      var j :| 0 <= j < |a| && a[j] == x;
    }
    forall x | x in a && x != a[0] ensures x in a[1..] {
      var j :| 0 <= j < |a| && a[j] == x;
      assert a[1..][j - 1] == x;
    }
  }

  /// Distinct indices below `k`, once sorted, are IndicesBelow.
  lemma SortedFound(found: seq<nat>, sorted: seq<nat>, s: set<nat>, k: nat)
    requires NoRepeats(found) && forall x :: x in found <==> x in s
    requires NonDecreasing(sorted) && multiset(sorted) == multiset(found)
    requires forall x :: x in s ==> x < k
    ensures sorted == IndicesBelow(s, k)
  {
    NoRepeatsCounted(found);
    SortedDistinct(sorted);
    forall x ensures x in sorted <==> x in found {
      assert x in sorted <==> x in multiset(sorted);
      assert x in found <==> x in multiset(found);
    }
    IncreasingUnique(sorted, IndicesBelow(s, k));
  }

  /// The stale indices of a valid table were given out.
  lemma StaleBlockIndicesBelow(m: map<BlockId, BlockInfo>, owner: map<nat, BlockId>, blockNumber: nat, passCount: nat, pn: nat)
    requires BlockTableValid(m, owner, blockNumber, passCount)
    ensures forall x :: x in StaleBlockIndices(m, m.Keys, pn) ==> x < blockNumber
  {
  }

  lemma StaleInstIndicesBelow(m: map<InstId, InstructionInfo>, owner: map<nat, InstId>, instructionNumber: nat, blockNumber: nat,
                              passCount: nat, pn: nat)
    requires InstTableValid(m, owner, instructionNumber, blockNumber, passCount)
    ensures forall x :: x in StaleInstIndices(m, m.Keys, pn) ==> x < instructionNumber
  {
  }

  /// The block table after the sweep: a stale entry gets pass number 0,
  /// so that the block reads as untracked.
  function SweptBlocks(m: map<BlockId, BlockInfo>, pn: nat): map<BlockId, BlockInfo>
  {
    map b | b in m :: SweptBlock(m[b], pn)
  }

  function SweptBlock(info: BlockInfo, pn: nat): BlockInfo
  {
    if Stale(info.passNumber, pn) then info.(passNumber := 0) else info
  }

  function SweptInsts(m: map<InstId, InstructionInfo>, pn: nat): map<InstId, InstructionInfo>
  {
    map i | i in m :: SweptInst(m[i], pn)
  }

  function SweptInst(info: InstructionInfo, pn: nat): InstructionInfo
  {
    if Stale(info.passNumber, pn) then info.(passNumber := 0) else info
  }

  /// The indices of the stale entries among `keys`.
  function StaleBlockIndices(m: map<BlockId, BlockInfo>, keys: set<BlockId>, pn: nat): set<nat>
  {
    set b | b in keys && b in m && Stale(m[b].passNumber, pn) :: m[b].index
  }

  function StaleInstIndices(m: map<InstId, InstructionInfo>, keys: set<InstId>, pn: nat): set<nat>
  {
    set i | i in keys && i in m && Stale(m[i].passNumber, pn) :: m[i].index
  }

  /// One more key looked at.
  lemma StaleBlockIndicesAdd(m: map<BlockId, BlockInfo>, keys: set<BlockId>, b: BlockId, pn: nat)
    requires b in m
    ensures StaleBlockIndices(m, keys + {b}, pn) ==
            StaleBlockIndices(m, keys, pn) + (if Stale(m[b].passNumber, pn) then {m[b].index} else {})
  {
  }

  /// One step of the block sweep: the indices collected stay distinct and
  /// are those of the stale entries looked at.
  lemma SweepBlockStep(b0: map<BlockId, BlockInfo>, owner: map<nat, BlockId>, count: nat, passCount: nat, pn: nat,
                       todo: set<BlockId>, found: seq<nat>, b: BlockId)
    requires BlockTableValid(b0, owner, count, passCount) && b in todo && todo <= b0.Keys
    requires NoRepeats(found) && forall x :: x in found <==> x in StaleBlockIndices(b0, b0.Keys - todo, pn)
    ensures var found' := if Stale(b0[b].passNumber, pn) then found + [b0[b].index] else found;
      NoRepeats(found') && forall x :: x in found' <==> x in StaleBlockIndices(b0, b0.Keys - (todo - {b}), pn)
  {
    StaleBlockIndicesAdd(b0, b0.Keys - todo, b, pn);
    assert b0.Keys - todo + {b} == b0.Keys - (todo - {b});
    if Stale(b0[b].passNumber, pn) {
      forall x | x in found ensures x != b0[b].index {
        var c :| c in b0.Keys - todo && c in b0 && Stale(b0[c].passNumber, pn) && b0[c].index == x;
        BlockIndicesDistinct(b0, owner, count, passCount, b, c);
      }
    }
  }

  lemma StaleInstIndicesAdd(m: map<InstId, InstructionInfo>, keys: set<InstId>, i: InstId, pn: nat)
    requires i in m
    ensures StaleInstIndices(m, keys + {i}, pn) ==
            StaleInstIndices(m, keys, pn) + (if Stale(m[i].passNumber, pn) then {m[i].index} else {})
  {
  }

  /// One step of the instruction sweep.
  lemma SweepInstStep(i0: map<InstId, InstructionInfo>, owner: map<nat, InstId>, count: nat, blockNumber: nat, passCount: nat, pn: nat,
                      todo: set<InstId>, found: seq<nat>, i: InstId)
    requires InstTableValid(i0, owner, count, blockNumber, passCount) && i in todo && todo <= i0.Keys
    requires NoRepeats(found) && forall x :: x in found <==> x in StaleInstIndices(i0, i0.Keys - todo, pn)
    ensures var found' := if Stale(i0[i].passNumber, pn) then found + [i0[i].index] else found;
      NoRepeats(found') && forall x :: x in found' <==> x in StaleInstIndices(i0, i0.Keys - (todo - {i}), pn)
  {
    StaleInstIndicesAdd(i0, i0.Keys - todo, i, pn);
    assert i0.Keys - todo + {i} == i0.Keys - (todo - {i});
    if Stale(i0[i].passNumber, pn) {
      forall x | x in found ensures x != i0[i].index {
        var c :| c in i0.Keys - todo && c in i0 && Stale(i0[c].passNumber, pn) && i0[c].index == x;
        InstIndicesDistinct(i0, owner, count, blockNumber, passCount, i, c);
      }
    }
  }

  /// The deletion lines, one per index, in order.
  function BlockDeletedLines(s: seq<nat>): (r: seq<Event>)
    ensures |r| == |s| && forall j :: 0 <= j < |s| ==> r[j] == BlockDeleted(s[j])
  {
    if s == [] then [] else BlockDeletedLines(s[..|s| - 1]) + [BlockDeleted(s[|s| - 1])]
  }

  function InstDeletedLines(s: seq<nat>): (r: seq<Event>)
    ensures |r| == |s| && forall j :: 0 <= j < |s| ==> r[j] == InstDeleted(s[j])
  {
    if s == [] then [] else InstDeletedLines(s[..|s| - 1]) + [InstDeleted(s[|s| - 1])]
  }

  /// The logger's state: the passes run, the run count of each pass name,
  /// and the two tables with their counters.
  datatype LogState = LogState(passes: seq<LogPassInfo>, passInstance: map<string, nat>, blocks: BlockTable, insts: InstTable)

  /// A state after a run of the logger, and the lines it wrote.
  datatype Logged = Logged(state: LogState, events: seq<Event>)

  /// `PassInstance[name]`: a missing name reads as 0.
  function InstanceOf(passInstance: map<string, nat>, name: string): nat
  {
    if name in passInstance then passInstance[name] else 0
  }

  /// After pass `name`: count the run, number it, walk the function
  /// stamping that number, then sweep.
  function AfterPassSpec(s: LogState, f: Body, name: string): Logged
  {
    SweepWalk(s, name, BodyWalk(s.blocks, s.insts, f, |f|, Some(|s.passes| + 1)))
  }

  /// The rest of pass `name` once its walk `w` is done: clear the stale
  /// entries and report them, blocks first, each group in increasing index
  /// order.
  function SweepWalk(s: LogState, name: string, w: Walk): Logged
  {
    var instance := InstanceOf(s.passInstance, name) + 1;
    var pn := |s.passes| + 1;
    var deletedBlocks := IndicesBelow(StaleBlockIndices(w.blocks.entries, w.blocks.entries.Keys, pn), w.blocks.next);
    var deletedInsts := IndicesBelow(StaleInstIndices(w.insts.entries, w.insts.entries.Keys, pn), w.insts.next);
    Logged(LogState(s.passes + [LogPassInfo(instance, name)], s.passInstance[name := instance],
                    BlockTable(SweptBlocks(w.blocks.entries, pn), w.blocks.next),
                    InstTable(SweptInsts(w.insts.entries, pn), w.insts.next)),
           [InPass(name)] + w.events + BlockDeletedLines(deletedBlocks) + InstDeletedLines(deletedInsts))
  }

  /// The final pass: the walk with no pass number, after the header.
  function FinalPassSpec(s: LogState, f: Body): Logged
  {
    var w := BodyWalk(s.blocks, s.insts, f, |f|, None);
    Logged(s.(blocks := w.blocks, insts := w.insts), [InFinal] + w.events)
  }

  /// Every index below its counter and every pass number at most the
  /// number of passes run.
  predicate Bounded(s: LogState)
  {
    (forall b :: b in s.blocks.entries ==> s.blocks.entries[b].index < s.blocks.next && s.blocks.entries[b].passNumber <= |s.passes|) &&
    (forall i :: i in s.insts.entries ==> s.insts.entries[i].index < s.insts.next && s.insts.entries[i].passNumber <= |s.passes|)
  }

  /// The indices of the entries tracked in `m` whose block is not in `kept`.
  function DroppedBlocks(m: map<BlockId, BlockInfo>, kept: set<BlockId>): set<nat>
  {
    set b | b in m && m[b].passNumber != 0 && b !in kept :: m[b].index
  }

  function DroppedInsts(m: map<InstId, InstructionInfo>, kept: set<InstId>): set<nat>
  {
    set i | i in m && m[i].passNumber != 0 && i !in kept :: m[i].index
  }

  /// After a pass over a well-formed function, the tracked blocks and
  /// instructions are exactly those of the function.
  lemma AfterPassTracked(s: LogState, f: Body, name: string)
    requires WellFormed(f) && Bounded(s)
    ensures var r := AfterPassSpec(s, f, name).state;
      (forall b :: BlockTracked(r.blocks.entries, b) <==> b in BlockIds(f, |f|)) &&
      (forall i :: InstTracked(r.insts.entries, i) <==> i in InstIds(f, |f|))
  {
    var pn := |s.passes| + 1;
    var w := BodyWalk(s.blocks, s.insts, f, |f|, Some(pn));
    BodyBlocksSpec(s.blocks, s.insts, f, |f|, Some(pn));
    BodyInstsSpec(s.blocks, s.insts, f, |f|, Some(pn));
    TrackedAfterSweep(s, f, pn, w);
    var r := AfterPassSpec(s, f, name).state;
    assert r.blocks.entries == SweptBlocks(w.blocks.entries, pn) && r.insts.entries == SweptInsts(w.insts.entries, pn);
  }

  /// The same on the walk's tables: after the sweep, an entry is tracked
  /// exactly when the walk stamped it.
  lemma TrackedAfterSweep(s: LogState, f: Body, pn: nat, w: Walk)
    requires WellFormed(f) && Bounded(s) && pn == |s.passes| + 1
    requires BodyBlocks(s.blocks.entries, w.blocks.entries, f, |f|, s.blocks.next, Some(pn))
    requires BodyInsts(s.insts.entries, w.insts.entries, f, |f|, s.insts.next, w.blocks.entries, Some(pn))
    ensures forall b :: BlockTracked(SweptBlocks(w.blocks.entries, pn), b) <==> b in BlockIds(f, |f|)
    ensures forall i :: InstTracked(SweptInsts(w.insts.entries, pn), i) <==> i in InstIds(f, |f|)
  {
    BlocksTrackedAfterSweep(s, f, pn, w);
    InstsTrackedAfterSweep(s, f, pn, w);
  }

  lemma BlocksTrackedAfterSweep(s: LogState, f: Body, pn: nat, w: Walk)
    requires WellFormed(f) && Bounded(s) && pn == |s.passes| + 1
    requires BodyBlocks(s.blocks.entries, w.blocks.entries, f, |f|, s.blocks.next, Some(pn))
    ensures forall b :: BlockTracked(SweptBlocks(w.blocks.entries, pn), b) <==> b in BlockIds(f, |f|)
  {
    forall b ensures BlockTracked(SweptBlocks(w.blocks.entries, pn), b) <==> b in BlockIds(f, |f|) {
      if b in BlockIds(f, |f|) {
        var a :| 0 <= a < |f| && f[a].id == b;
        assert BlockVisited(s.blocks.entries, f[a].id, w.blocks.entries[f[a].id], s.blocks.next, Some(pn));
      }
    }
  }

  lemma InstsTrackedAfterSweep(s: LogState, f: Body, pn: nat, w: Walk)
    requires WellFormed(f) && Bounded(s) && pn == |s.passes| + 1
    requires BodyInsts(s.insts.entries, w.insts.entries, f, |f|, s.insts.next, w.blocks.entries, Some(pn))
    ensures forall i :: InstTracked(SweptInsts(w.insts.entries, pn), i) <==> i in InstIds(f, |f|)
  {
    forall i ensures InstTracked(SweptInsts(w.insts.entries, pn), i) <==> i in InstIds(f, |f|) {
      if i in InstIds(f, |f|) {
        var a, m :| 0 <= a < |f| && 0 <= m < |f[a].insts| && f[a].insts[m] == i;
        assert InstVisitedAt(s.insts.entries, w.insts.entries, f, a, m, s.insts.next, w.blocks.entries, Some(pn));
      }
    }
  }

  /// After a pass over a well-formed function, the deletion lines name
  /// exactly the blocks and instructions tracked before the pass and no
  /// longer in the function, each group in increasing index order.
  lemma AfterPassDeleted(s: LogState, f: Body, name: string)
    requires WellFormed(f) && Bounded(s)
    ensures var e := AfterPassSpec(s, f, name).events;
      (forall x :: BlockDeleted(x) in e <==> x in DroppedBlocks(s.blocks.entries, BlockIds(f, |f|))) &&
      (forall x :: InstDeleted(x) in e <==> x in DroppedInsts(s.insts.entries, InstIds(f, |f|))) &&
      (forall j, k :: 0 <= j < k < |e| && e[j].BlockDeleted? && e[k].BlockDeleted? ==> e[j].index < e[k].index) &&
      (forall j, k :: 0 <= j < k < |e| && e[j].InstDeleted? && e[k].InstDeleted? ==> e[j].index < e[k].index)
  {
    var pn := |s.passes| + 1;
    var w := BodyWalk(s.blocks, s.insts, f, |f|, Some(pn));
    BodyBlocksSpec(s.blocks, s.insts, f, |f|, Some(pn));
    BodyInstsSpec(s.blocks, s.insts, f, |f|, Some(pn));
    BodyReportedSpec(s.blocks, s.insts, f, |f|, Some(pn));
    DeletedAfterWalk(s, f, name, pn, w);
    assert AfterPassSpec(s, f, name).events ==
      [InPass(name)] + w.events +
      BlockDeletedLines(IndicesBelow(StaleBlockIndices(w.blocks.entries, w.blocks.entries.Keys, pn), w.blocks.next)) +
      InstDeletedLines(IndicesBelow(StaleInstIndices(w.insts.entries, w.insts.entries.Keys, pn), w.insts.next));
  }

  /// The same on the walk's tables and lines.
  lemma DeletedAfterWalk(s: LogState, f: Body, name: string, pn: nat, w: Walk)
    requires WellFormed(f) && Bounded(s) && pn == |s.passes| + 1
    requires s.blocks.next <= w.blocks.next && s.insts.next <= w.insts.next
    requires BodyBlocks(s.blocks.entries, w.blocks.entries, f, |f|, s.blocks.next, Some(pn))
    requires BodyInsts(s.insts.entries, w.insts.entries, f, |f|, s.insts.next, w.blocks.entries, Some(pn))
    requires forall e :: e in w.events ==> WalkEvent(e)
    ensures var e := [InPass(name)] + w.events +
      BlockDeletedLines(IndicesBelow(StaleBlockIndices(w.blocks.entries, w.blocks.entries.Keys, pn), w.blocks.next)) +
      InstDeletedLines(IndicesBelow(StaleInstIndices(w.insts.entries, w.insts.entries.Keys, pn), w.insts.next));
      (forall x :: BlockDeleted(x) in e <==> x in DroppedBlocks(s.blocks.entries, BlockIds(f, |f|))) &&
      (forall x :: InstDeleted(x) in e <==> x in DroppedInsts(s.insts.entries, InstIds(f, |f|))) &&
      (forall j, k :: 0 <= j < k < |e| && e[j].BlockDeleted? && e[k].BlockDeleted? ==> e[j].index < e[k].index) &&
      (forall j, k :: 0 <= j < k < |e| && e[j].InstDeleted? && e[k].InstDeleted? ==> e[j].index < e[k].index)
  {
    StaleBlocksDropped(s, f, pn, w);
    StaleInstsDropped(s, f, pn, w);
    var db := IndicesBelow(StaleBlockIndices(w.blocks.entries, w.blocks.entries.Keys, pn), w.blocks.next);
    var di := IndicesBelow(StaleInstIndices(w.insts.entries, w.insts.entries.Keys, pn), w.insts.next);
    var head := [InPass(name)] + w.events;
    assert forall k :: 0 <= k < |head| ==> !head[k].BlockDeleted? && !head[k].InstDeleted? by {
      forall k | 0 <= k < |head| ensures !head[k].BlockDeleted? && !head[k].InstDeleted? {
        if k > 0 {
          assert head[k] == w.events[k - 1] && w.events[k - 1] in w.events;
        }
      }
    }
    DeletedLinesPlaced(head, db, di, head + BlockDeletedLines(db) + InstDeletedLines(di));
  }

  /// The stale block entries after the walk are those tracked before and
  /// outside the function.
  lemma StaleBlocksDropped(s: LogState, f: Body, pn: nat, w: Walk)
    requires WellFormed(f) && Bounded(s) && pn == |s.passes| + 1
    requires BodyBlocks(s.blocks.entries, w.blocks.entries, f, |f|, s.blocks.next, Some(pn))
    requires s.blocks.next <= w.blocks.next
    ensures forall x :: x in StaleBlockIndices(w.blocks.entries, w.blocks.entries.Keys, pn) && x < w.blocks.next <==>
                        x in DroppedBlocks(s.blocks.entries, BlockIds(f, |f|))
  {
    assert forall b :: b in BlockIds(f, |f|) ==> b in w.blocks.entries && w.blocks.entries[b].passNumber == pn by {
      forall b | b in BlockIds(f, |f|) ensures b in w.blocks.entries && w.blocks.entries[b].passNumber == pn {
        var a :| 0 <= a < |f| && f[a].id == b;
        assert BlockVisited(s.blocks.entries, f[a].id, w.blocks.entries[f[a].id], s.blocks.next, Some(pn));
      }
    }
    forall x ensures x in StaleBlockIndices(w.blocks.entries, w.blocks.entries.Keys, pn) ==> x in DroppedBlocks(s.blocks.entries, BlockIds(f, |f|)) {
      if x in StaleBlockIndices(w.blocks.entries, w.blocks.entries.Keys, pn) {
        var b :| b in w.blocks.entries && Stale(w.blocks.entries[b].passNumber, pn) && w.blocks.entries[b].index == x;
        assert b !in BlockIds(f, |f|);
      }
    }
    forall x ensures x in DroppedBlocks(s.blocks.entries, BlockIds(f, |f|)) ==> x in StaleBlockIndices(w.blocks.entries, w.blocks.entries.Keys, pn) && x < w.blocks.next {
      if x in DroppedBlocks(s.blocks.entries, BlockIds(f, |f|)) {
        var b :| b in s.blocks.entries && s.blocks.entries[b].passNumber != 0 && b !in BlockIds(f, |f|) && s.blocks.entries[b].index == x;
        assert w.blocks.entries[b] == s.blocks.entries[b];
      }
    }
  }

  lemma StaleInstsDropped(s: LogState, f: Body, pn: nat, w: Walk)
    requires WellFormed(f) && Bounded(s) && pn == |s.passes| + 1
    requires BodyInsts(s.insts.entries, w.insts.entries, f, |f|, s.insts.next, w.blocks.entries, Some(pn))
    requires s.insts.next <= w.insts.next
    ensures forall x :: x in StaleInstIndices(w.insts.entries, w.insts.entries.Keys, pn) && x < w.insts.next <==>
                        x in DroppedInsts(s.insts.entries, InstIds(f, |f|))
  {
    assert forall i :: i in InstIds(f, |f|) ==> i in w.insts.entries && w.insts.entries[i].passNumber == pn by {
      forall i | i in InstIds(f, |f|) ensures i in w.insts.entries && w.insts.entries[i].passNumber == pn {
        var a, m :| 0 <= a < |f| && 0 <= m < |f[a].insts| && f[a].insts[m] == i;
        assert InstVisitedAt(s.insts.entries, w.insts.entries, f, a, m, s.insts.next, w.blocks.entries, Some(pn));
      }
    }
    forall x ensures x in StaleInstIndices(w.insts.entries, w.insts.entries.Keys, pn) ==> x in DroppedInsts(s.insts.entries, InstIds(f, |f|)) {
      if x in StaleInstIndices(w.insts.entries, w.insts.entries.Keys, pn) {
        var i :| i in w.insts.entries && Stale(w.insts.entries[i].passNumber, pn) && w.insts.entries[i].index == x;
        assert i !in InstIds(f, |f|);
      }
    }
    forall x ensures x in DroppedInsts(s.insts.entries, InstIds(f, |f|)) ==> x in StaleInstIndices(w.insts.entries, w.insts.entries.Keys, pn) && x < w.insts.next {
      if x in DroppedInsts(s.insts.entries, InstIds(f, |f|)) {
        var i :| i in s.insts.entries && s.insts.entries[i].passNumber != 0 && i !in InstIds(f, |f|) && s.insts.entries[i].index == x;
        assert w.insts.entries[i] == s.insts.entries[i];
      }
    }
  }

  /// The deletion lines after a head with none: their indices are the
  /// given ones, in the given increasing order.
  lemma DeletedLinesPlaced(head: seq<Event>, db: seq<nat>, di: seq<nat>, e: seq<Event>)
    requires forall k :: 0 <= k < |head| ==> !head[k].BlockDeleted? && !head[k].InstDeleted?
    requires Increasing(db) && Increasing(di) && e == head + BlockDeletedLines(db) + InstDeletedLines(di)
    ensures forall x :: BlockDeleted(x) in e <==> x in db
    ensures forall x :: InstDeleted(x) in e <==> x in di
    ensures forall j, k :: 0 <= j < k < |e| && e[j].BlockDeleted? && e[k].BlockDeleted? ==> e[j].index < e[k].index
    ensures forall j, k :: 0 <= j < k < |e| && e[j].InstDeleted? && e[k].InstDeleted? ==> e[j].index < e[k].index
  {
    BlockDeletedPlaced(head, db, InstDeletedLines(di), e);
    InstDeletedPlaced(head + BlockDeletedLines(db), di, e);
  }

  /// The block deletion lines between a head and a tail with none.
  lemma BlockDeletedPlaced(head: seq<Event>, db: seq<nat>, tail: seq<Event>, e: seq<Event>)
    requires forall k :: 0 <= k < |head| ==> !head[k].BlockDeleted?
    requires forall k :: 0 <= k < |tail| ==> !tail[k].BlockDeleted?
    requires Increasing(db) && e == head + BlockDeletedLines(db) + tail
    ensures forall x :: BlockDeleted(x) in e <==> x in db
    ensures forall j, k :: 0 <= j < k < |e| && e[j].BlockDeleted? && e[k].BlockDeleted? ==> e[j].index < e[k].index
  {
    var lb := BlockDeletedLines(db);
    var h, n := |head|, |db|;
    assert forall k :: 0 <= k < h ==> e[k] == head[k];
    assert forall k :: h <= k < h + n ==> e[k] == lb[k - h];
    assert forall k :: h + n <= k < |e| ==> e[k] == tail[k - h - n];
    forall x ensures BlockDeleted(x) in e <==> x in db {
      if x in db {
        var k :| 0 <= k < n && db[k] == x;
        assert e[h + k] == lb[k];
      }
    }
    assert forall m :: 0 <= m < h ==> !e[m].BlockDeleted?;
    assert forall m :: h + n <= m < |e| ==> !e[m].BlockDeleted?;
    forall j, k | 0 <= j < k < |e| && e[j].BlockDeleted? && e[k].BlockDeleted?
      ensures e[j].index < e[k].index
    {
      assert e[j] == lb[j - h] && e[k] == lb[k - h];
    }
  }

  /// The instruction deletion lines at the end of the log.
  lemma InstDeletedPlaced(head: seq<Event>, di: seq<nat>, e: seq<Event>)
    requires forall k :: 0 <= k < |head| ==> !head[k].InstDeleted?
    requires Increasing(di) && e == head + InstDeletedLines(di)
    ensures forall x :: InstDeleted(x) in e <==> x in di
    ensures forall j, k :: 0 <= j < k < |e| && e[j].InstDeleted? && e[k].InstDeleted? ==> e[j].index < e[k].index
  {
    var li := InstDeletedLines(di);
    var h := |head|;
    assert forall k :: 0 <= k < h ==> e[k] == head[k];
    assert forall k :: h <= k < |e| ==> e[k] == li[k - h];
    forall x ensures InstDeleted(x) in e <==> x in di {
      if x in di {
        var k :| 0 <= k < |di| && di[k] == x;
        assert e[h + k] == li[k];
      }
    }
  }

  /// After a pass over a well-formed function: every block of it keeps
  /// its index if it was tracked and is reported new otherwise, and carries
  /// the pass's number.
  lemma AfterPassBlocks(s: LogState, f: Body, name: string)
    requires WellFormed(f) && Bounded(s)
    ensures var r := AfterPassSpec(s, f, name); var pn := |s.passes| + 1;
      forall a :: 0 <= a < |f| ==>
        BlockReportedAt(f, a, s.blocks.entries, r.state.blocks.entries, Some(pn), r.events) &&
        BlockVisited(s.blocks.entries, f[a].id, r.state.blocks.entries[f[a].id], s.blocks.next, Some(pn))
  {
    var pn := |s.passes| + 1;
    var w := BodyWalk(s.blocks, s.insts, f, |f|, Some(pn));
    BodyBlocksSpec(s.blocks, s.insts, f, |f|, Some(pn));
    BodyReportedSpec(s.blocks, s.insts, f, |f|, Some(pn));
    var r := AfterPassSpec(s, f, name);
    assert r.state.blocks.entries == SweptBlocks(w.blocks.entries, pn);
    BlocksReportedAfterSweep(s, f, pn, w, r.events);
  }

  lemma BlocksReportedAfterSweep(s: LogState, f: Body, pn: nat, w: Walk, e: seq<Event>)
    requires WellFormed(f) && pn == |s.passes| + 1
    requires BodyBlocks(s.blocks.entries, w.blocks.entries, f, |f|, s.blocks.next, Some(pn))
    requires BodyReported(s.insts.entries, w.insts.entries, f, |f|, s.blocks.entries, w.blocks.entries, Some(pn), w.events)
    requires forall x :: x in w.events ==> x in e
    ensures forall a :: 0 <= a < |f| ==>
      BlockReportedAt(f, a, s.blocks.entries, SweptBlocks(w.blocks.entries, pn), Some(pn), e) &&
      BlockVisited(s.blocks.entries, f[a].id, SweptBlocks(w.blocks.entries, pn)[f[a].id], s.blocks.next, Some(pn))
  {
    forall a | 0 <= a < |f|
      ensures BlockReportedAt(f, a, s.blocks.entries, SweptBlocks(w.blocks.entries, pn), Some(pn), e)
      ensures BlockVisited(s.blocks.entries, f[a].id, SweptBlocks(w.blocks.entries, pn)[f[a].id], s.blocks.next, Some(pn))
    {
      assert BlockVisited(s.blocks.entries, f[a].id, w.blocks.entries[f[a].id], s.blocks.next, Some(pn));
      assert BlockReportedAt(f, a, s.blocks.entries, w.blocks.entries, Some(pn), w.events);
      assert SweptBlocks(w.blocks.entries, pn)[f[a].id] == w.blocks.entries[f[a].id];
    }
  }

  /// After a pass over a well-formed function: every instruction of it
  /// keeps its index if it was tracked and is reported new otherwise,
  /// records its block's index, carries the pass's number, and is reported
  /// moved when it was tracked in another block; every move reported is
  /// one.
  lemma AfterPassInsts(s: LogState, f: Body, name: string)
    requires WellFormed(f) && Bounded(s)
    ensures var r := AfterPassSpec(s, f, name); var pn := |s.passes| + 1;
      (forall a, m :: 0 <= a < |f| && 0 <= m < |f[a].insts| ==>
        InstVisitedAt(s.insts.entries, r.state.insts.entries, f, a, m, s.insts.next, r.state.blocks.entries, Some(pn)) &&
        InstReportedAt(s.insts.entries, r.state.insts.entries, f, a, m, r.state.blocks.entries, Some(pn), r.events)) &&
      MovesReal(s.insts.entries, r.state.insts.entries, r.events)
  {
    var pn := |s.passes| + 1;
    var w := BodyWalk(s.blocks, s.insts, f, |f|, Some(pn));
    BodyBlocksSpec(s.blocks, s.insts, f, |f|, Some(pn));
    BodyInstsSpec(s.blocks, s.insts, f, |f|, Some(pn));
    BodyReportedSpec(s.blocks, s.insts, f, |f|, Some(pn));
    var r := AfterPassSpec(s, f, name);
    var tail := BlockDeletedLines(IndicesBelow(StaleBlockIndices(w.blocks.entries, w.blocks.entries.Keys, pn), w.blocks.next)) +
                InstDeletedLines(IndicesBelow(StaleInstIndices(w.insts.entries, w.insts.entries.Keys, pn), w.insts.next));
    assert r.events == [InPass(name)] + w.events + tail;
    assert r.state.blocks.entries == SweptBlocks(w.blocks.entries, pn) && r.state.insts.entries == SweptInsts(w.insts.entries, pn);
    InstsReportedAfterSweep(s, f, pn, w, [InPass(name)] + w.events + tail);
    assert forall k :: 0 <= k < |tail| ==> !tail[k].InstMoved?;
    MovesAfterSweep(s, pn, w, name, tail);
  }

  lemma InstsReportedAfterSweep(s: LogState, f: Body, pn: nat, w: Walk, e: seq<Event>)
    requires WellFormed(f) && pn == |s.passes| + 1
    requires BodyBlocks(s.blocks.entries, w.blocks.entries, f, |f|, s.blocks.next, Some(pn))
    requires BodyInsts(s.insts.entries, w.insts.entries, f, |f|, s.insts.next, w.blocks.entries, Some(pn))
    requires BodyReported(s.insts.entries, w.insts.entries, f, |f|, s.blocks.entries, w.blocks.entries, Some(pn), w.events)
    requires forall x :: x in w.events ==> x in e
    ensures forall a, m :: 0 <= a < |f| && 0 <= m < |f[a].insts| ==>
      InstVisitedAt(s.insts.entries, SweptInsts(w.insts.entries, pn), f, a, m, s.insts.next, SweptBlocks(w.blocks.entries, pn), Some(pn)) &&
      InstReportedAt(s.insts.entries, SweptInsts(w.insts.entries, pn), f, a, m, SweptBlocks(w.blocks.entries, pn), Some(pn), e)
  {
    forall a, m | 0 <= a < |f| && 0 <= m < |f[a].insts|
      ensures InstVisitedAt(s.insts.entries, SweptInsts(w.insts.entries, pn), f, a, m, s.insts.next, SweptBlocks(w.blocks.entries, pn), Some(pn))
      ensures InstReportedAt(s.insts.entries, SweptInsts(w.insts.entries, pn), f, a, m, SweptBlocks(w.blocks.entries, pn), Some(pn), e)
    {
      assert BlockVisited(s.blocks.entries, f[a].id, w.blocks.entries[f[a].id], s.blocks.next, Some(pn));
      assert SweptBlocks(w.blocks.entries, pn)[f[a].id] == w.blocks.entries[f[a].id];
      assert InstVisitedAt(s.insts.entries, w.insts.entries, f, a, m, s.insts.next, w.blocks.entries, Some(pn));
      assert InstReportedAt(s.insts.entries, w.insts.entries, f, a, m, w.blocks.entries, Some(pn), w.events);
      assert SweptInsts(w.insts.entries, pn)[f[a].insts[m]] == w.insts.entries[f[a].insts[m]];
    }
  }

  /// The moves after the sweep: the walk's, which the sweep leaves real.
  lemma MovesAfterSweep(s: LogState, pn: nat, w: Walk, name: string, tail: seq<Event>)
    requires MovesReal(s.insts.entries, w.insts.entries, w.events)
    requires forall k :: 0 <= k < |tail| ==> !tail[k].InstMoved?
    ensures MovesReal(s.insts.entries, SweptInsts(w.insts.entries, pn), [InPass(name)] + w.events + tail)
  {
    var e := [InPass(name)] + w.events + tail;
    forall k | 0 <= k < |e| && e[k].InstMoved?
      ensures Moved(s.insts.entries, e[k].inst, e[k].to) && e[k].from == s.insts.entries[e[k].inst].blockNumber
      ensures e[k].inst in SweptInsts(w.insts.entries, pn) && SweptInsts(w.insts.entries, pn)[e[k].inst].blockNumber == e[k].to
    {
      if 1 <= k < 1 + |w.events| {
        assert e[k] == w.events[k - 1];
      }
    }
  }

  /// The final pass over a well-formed function reports every block and
  /// every instruction of it, leaves pass numbers as they were, and
  /// reports every move of an instruction and no other.
  lemma FinalPassReports(s: LogState, f: Body)
    requires WellFormed(f)
    ensures var r := FinalPassSpec(s, f);
      (forall a :: 0 <= a < |f| ==>
        BlockReportedAt(f, a, s.blocks.entries, r.state.blocks.entries, None, r.events) &&
        BlockVisited(s.blocks.entries, f[a].id, r.state.blocks.entries[f[a].id], s.blocks.next, None)) &&
      (forall a, m :: 0 <= a < |f| && 0 <= m < |f[a].insts| ==>
        InstVisitedAt(s.insts.entries, r.state.insts.entries, f, a, m, s.insts.next, r.state.blocks.entries, None) &&
        InstReportedAt(s.insts.entries, r.state.insts.entries, f, a, m, r.state.blocks.entries, None, r.events)) &&
      MovesReal(s.insts.entries, r.state.insts.entries, r.events) && r.state.passes == s.passes
  {
    var w := BodyWalk(s.blocks, s.insts, f, |f|, None);
    BodyBlocksSpec(s.blocks, s.insts, f, |f|, None);
    BodyInstsSpec(s.blocks, s.insts, f, |f|, None);
    BodyReportedSpec(s.blocks, s.insts, f, |f|, None);
    var r := FinalPassSpec(s, f);
    assert r.state.blocks == w.blocks && r.state.insts == w.insts && r.events == [InFinal] + w.events;
    FinalReported(s, f, w);
  }

  lemma FinalReported(s: LogState, f: Body, w: Walk)
    requires WellFormed(f)
    requires BodyBlocks(s.blocks.entries, w.blocks.entries, f, |f|, s.blocks.next, None)
    requires BodyInsts(s.insts.entries, w.insts.entries, f, |f|, s.insts.next, w.blocks.entries, None)
    requires BodyReported(s.insts.entries, w.insts.entries, f, |f|, s.blocks.entries, w.blocks.entries, None, w.events)
    ensures var e := [InFinal] + w.events;
      (forall a :: 0 <= a < |f| ==>
        BlockReportedAt(f, a, s.blocks.entries, w.blocks.entries, None, e) &&
        BlockVisited(s.blocks.entries, f[a].id, w.blocks.entries[f[a].id], s.blocks.next, None)) &&
      (forall a, m :: 0 <= a < |f| && 0 <= m < |f[a].insts| ==>
        InstVisitedAt(s.insts.entries, w.insts.entries, f, a, m, s.insts.next, w.blocks.entries, None) &&
        InstReportedAt(s.insts.entries, w.insts.entries, f, a, m, w.blocks.entries, None, e)) &&
      MovesReal(s.insts.entries, w.insts.entries, e)
  {
    var e := [InFinal] + w.events;
    assert forall x :: x in w.events ==> x in e;
    forall a | 0 <= a < |f|
      ensures BlockReportedAt(f, a, s.blocks.entries, w.blocks.entries, None, e)
    {
      assert BlockReportedAt(f, a, s.blocks.entries, w.blocks.entries, None, w.events);
    }
    forall a, m | 0 <= a < |f| && 0 <= m < |f[a].insts|
      ensures InstReportedAt(s.insts.entries, w.insts.entries, f, a, m, w.blocks.entries, None, e)
    {
      assert InstReportedAt(s.insts.entries, w.insts.entries, f, a, m, w.blocks.entries, None, w.events);
    }
    forall k | 0 <= k < |e| && e[k].InstMoved?
      ensures Moved(s.insts.entries, e[k].inst, e[k].to) && e[k].from == s.insts.entries[e[k].inst].blockNumber
      ensures e[k].inst in w.insts.entries && w.insts.entries[e[k].inst].blockNumber == e[k].to
    {
      assert e[k] == w.events[k - 1];
    }
  }

  /// A pass name not in the list has run 0 times.
  lemma {:induction false} NameCountAbsent(passes: seq<LogPassInfo>, name: string)
    requires forall k :: 0 <= k < |passes| ==> passes[k].name != name
    ensures NameCount(passes, name) == 0
  {
    if passes != [] {
      NameCountAbsent(passes[..|passes| - 1], name);
    }
  }

  /// Appending an entry adds one run to its own pass only.
  lemma NameCountAppend(passes: seq<LogPassInfo>, e: LogPassInfo, name: string)
    ensures NameCount(passes + [e], name) == NameCount(passes, name) + (if e.name == name then 1 else 0)
  {
    assert (passes + [e])[..|passes|] == passes;
  }

  /// Counting a run of pass `name` and appending it to the list keeps the
  /// pass list valid: the new entry's instance is the pass's run count.
  lemma PassListAppend(passes: seq<LogPassInfo>, passInstance: map<string, nat>, name: string)
    requires PassListValid(passes, passInstance)
    ensures InstanceOf(passInstance, name) == NameCount(passes, name)
    ensures var instance := InstanceOf(passInstance, name) + 1;
      PassListValid(passes + [LogPassInfo(instance, name)], passInstance[name := instance])
  {
    if name !in passInstance {
      NameCountAbsent(passes, name);
    }
    var instance := InstanceOf(passInstance, name) + 1;
    var e := LogPassInfo(instance, name);
    var p := passes + [e];
    var m := passInstance[name := instance];
    forall n | n in m
      ensures m[n] == NameCount(p, n)
    {
      NameCountAppend(passes, e, n);
    }
    forall k | 0 <= k < |p|
      ensures p[k].name in m && p[k].instance == NameCount(p[..k + 1], p[k].name)
    {
      if k < |passes| {
        assert p[..k + 1] == passes[..k + 1];
      } else {
        assert p[..k + 1] == p;
        NameCountAppend(passes, e, name);
      }
    }
  }

  /// Running one more pass keeps the tables valid.
  lemma TablesMorePasses(blocks: map<BlockId, BlockInfo>, blockOwner: map<nat, BlockId>, blockNumber: nat,
                         instructions: map<InstId, InstructionInfo>, instOwner: map<nat, InstId>, instructionNumber: nat,
                         passCount: nat)
    requires BlockTableValid(blocks, blockOwner, blockNumber, passCount)
    requires InstTableValid(instructions, instOwner, instructionNumber, blockNumber, passCount)
    ensures BlockTableValid(blocks, blockOwner, blockNumber, passCount + 1)
    ensures InstTableValid(instructions, instOwner, instructionNumber, blockNumber, passCount + 1)
  {
  }

  /// Valid tables are bounded.
  lemma TablesBounded(s: LogState, blockOwner: map<nat, BlockId>, instOwner: map<nat, InstId>)
    requires BlockTableValid(s.blocks.entries, blockOwner, s.blocks.next, |s.passes|)
    requires InstTableValid(s.insts.entries, instOwner, s.insts.next, s.blocks.next, |s.passes|)
    ensures Bounded(s)
  {
  }

  /// The sweep loop over the block table, in the table's own order: a
  /// stale entry gets pass number 0 and its index is collected.
  method SweepBlockTable(b0: map<BlockId, BlockInfo>, pn: nat, ghost owner: map<nat, BlockId>, ghost count: nat, ghost passCount: nat)
    returns (m: map<BlockId, BlockInfo>, found: seq<nat>)
    requires BlockTableValid(b0, owner, count, passCount)
    ensures m == SweptBlocks(b0, pn) && BlockTableValid(m, owner, count, passCount)
    ensures NoRepeats(found) && forall x :: x in found <==> x in StaleBlockIndices(b0, b0.Keys, pn)
  {
    m := b0;
    var todo := m.Keys;
    found := [];
    while todo != {}
      invariant todo <= b0.Keys && m.Keys == b0.Keys
      invariant forall b :: b in b0 ==> m[b] == (if b in todo then b0[b] else SweptBlock(b0[b], pn))
      invariant NoRepeats(found) && forall x :: x in found <==> x in StaleBlockIndices(b0, b0.Keys - todo, pn)
      decreases |todo|
    {
      var b :| b in todo;
      SweepBlockStep(b0, owner, count, passCount, pn, todo, found, b);
      if m[b].passNumber != 0 && m[b].passNumber != pn {
        found := found + [m[b].index];
        m := m[b := m[b].(passNumber := 0)];
      }
      todo := todo - {b};
    }
    assert b0.Keys - todo == b0.Keys;
  }

  /// The sweep loop over the instruction table.
  method SweepInstTable(i0: map<InstId, InstructionInfo>, pn: nat, ghost owner: map<nat, InstId>, ghost count: nat,
                        ghost blockNumber: nat, ghost passCount: nat)
    returns (m: map<InstId, InstructionInfo>, found: seq<nat>)
    requires InstTableValid(i0, owner, count, blockNumber, passCount)
    ensures m == SweptInsts(i0, pn) && InstTableValid(m, owner, count, blockNumber, passCount)
    ensures NoRepeats(found) && forall x :: x in found <==> x in StaleInstIndices(i0, i0.Keys, pn)
  {
    m := i0;
    var todo := m.Keys;
    found := [];
    while todo != {}
      invariant todo <= i0.Keys && m.Keys == i0.Keys
      invariant forall i :: i in i0 ==> m[i] == (if i in todo then i0[i] else SweptInst(i0[i], pn))
      invariant NoRepeats(found) && forall x :: x in found <==> x in StaleInstIndices(i0, i0.Keys - todo, pn)
      decreases |todo|
    {
      var i :| i in todo;
      SweepInstStep(i0, owner, count, blockNumber, passCount, pn, todo, found, i);
      if m[i].passNumber != 0 && m[i].passNumber != pn {
        found := found + [m[i].index];
        m := m[i := m[i].(passNumber := 0)];
      }
      todo := todo - {i};
    }
    assert i0.Keys - todo == i0.Keys;
  }

  /// The rest of a pass, for the tables, counters and lines the sweep
  /// leaves.
  lemma SweepWalkOf(s: LogState, name: string, w: Walk, instance: nat, pn: nat,
                    blocks: map<BlockId, BlockInfo>, blockNumber: nat, instructions: map<InstId, InstructionInfo>, instructionNumber: nat,
                    lines: seq<Event>)
    requires instance == InstanceOf(s.passInstance, name) + 1 && pn == |s.passes| + 1
    requires blocks == SweptBlocks(w.blocks.entries, pn) && blockNumber == w.blocks.next
    requires instructions == SweptInsts(w.insts.entries, pn) && instructionNumber == w.insts.next
    requires lines == [InPass(name)] + w.events + BlockDeletedLines(IndicesBelow(StaleBlockIndices(w.blocks.entries, w.blocks.entries.Keys, pn), w.blocks.next)) +
                      InstDeletedLines(IndicesBelow(StaleInstIndices(w.insts.entries, w.insts.entries.Keys, pn), w.insts.next))
    ensures SweepWalk(s, name, w) ==
      Logged(LogState(s.passes + [LogPassInfo(instance, name)], s.passInstance[name := instance],
                      BlockTable(blocks, blockNumber), InstTable(instructions, instructionNumber)),
             lines)
  {
  }

  /// Writing the block deletion lines, one per index, in order.
  method WriteBlocksDeleted(log: seq<Event>, deleted: seq<nat>) returns (r: seq<Event>)
    ensures r == log + BlockDeletedLines(deleted)
  {
    r := log;
    for j := 0 to |deleted|
      invariant r == log + BlockDeletedLines(deleted[..j])
    {
      assert deleted[..j + 1][..j] == deleted[..j];
      r := r + [BlockDeleted(deleted[j])];
    }
    assert deleted[..|deleted|] == deleted;
  }

  /// Writing the instruction deletion lines, one per index, in order.
  method WriteInstsDeleted(log: seq<Event>, deleted: seq<nat>) returns (r: seq<Event>)
    ensures r == log + InstDeletedLines(deleted)
  {
    r := log;
    for j := 0 to |deleted|
      invariant r == log + InstDeletedLines(deleted[..j])
    {
      assert deleted[..j + 1][..j] == deleted[..j];
      r := r + [InstDeleted(deleted[j])];
    }
    assert deleted[..|deleted|] == deleted;
  }

  /// The change logger: the option naming the logged function, the list of
  /// passes run, the block and instruction tables with their counters, the
  /// final-pass flag, and the log stream.
  class ChangeLogger {
    const functionToLog: string
    var finalPassSeen: bool
    var passes: seq<LogPassInfo>
    var passInstance: map<string, nat>
    var blockNumber: nat
    var blocks: map<BlockId, BlockInfo>
    var instructionNumber: nat
    var instructions: map<InstId, InstructionInfo>
    /// The block and the instruction holding each index given out.
    ghost var blockOwner: map<nat, BlockId>
    ghost var instOwner: map<nat, InstId>
    var output: seq<Event>

    /// Indices are below their counter and all different; pass numbers
    /// are at most the number of passes run; an instruction's block index
    /// is a block index given out; the instance counts are the number of
    /// runs of each pass.
    ghost predicate Valid()
      reads this
    {
      BlockTableValid(blocks, blockOwner, blockNumber, |passes|) &&
      InstTableValid(instructions, instOwner, instructionNumber, blockNumber, |passes|) &&
      PassListValid(passes, passInstance)
    }

    constructor (functionToLog: string)
      ensures Valid() && this.functionToLog == functionToLog && !finalPassSeen
      ensures passes == [] && passInstance == map[] && output == []
      ensures blockNumber == 0 && blocks == map[] && instructionNumber == 0 && instructions == map[]
    {
      this.functionToLog := functionToLog;
      finalPassSeen := false;
      passes := [];
      passInstance := map[];
      blockNumber := 0;
      blocks := map[];
      instructionNumber := 0;
      instructions := map[];
      blockOwner := map[];
      instOwner := map[];
      output := [];
    }

    /// One instruction of a block with index `blockIndex`; `pass` is the
    /// current pass number, or None in the final pass.
    method VisitInstruction(inst: InstId, blockIndex: nat, pass: Option<nat>) returns (events: seq<Event>)
      requires Valid() && blockIndex < blockNumber && (pass.Some? ==> pass.value <= |passes|)
      modifies this`instructions, this`instructionNumber, this`instOwner
      ensures Valid()
      ensures InstsDone(InstTable(instructions, instructionNumber), events) ==
              VisitInst(InstTable(old(instructions), old(instructionNumber)), inst, blockIndex, pass)
    {
      ghost var counter := instructionNumber;
      var info := if inst in instructions then instructions[inst] else InstructionInfo(0, 0, 0);
      if info.passNumber == 0 {
        info := info.(index := instructionNumber, blockNumber := blockIndex);
        instructionNumber := instructionNumber + 1;
        events := [InstNew(info.index, inst)];
      } else if info.blockNumber != blockIndex {
        events := [InstMoved(info.index, info.blockNumber, blockIndex, inst)];
        info := info.(blockNumber := blockIndex);
      } else {
        events := [];
      }
      // A pass stamps its number; the final pass reports the instruction.
      info := info.(passNumber := if pass.Some? then pass.value else info.passNumber);
      events := events + (if pass.None? then [InstFinal(info.index, inst)] else []);
      InstTableUpdate(instructions, instOwner, counter, blockNumber, |passes|, inst, info, instructionNumber);
      instructions := instructions[inst := info];
      instOwner := instOwner[info.index := inst];
    }

    /// The instructions of the block with index `blockIndex`, in order.
    method VisitInstructions(insts: seq<InstId>, blockIndex: nat, pass: Option<nat>) returns (events: seq<Event>)
      requires Valid() && blockIndex < blockNumber && (pass.Some? ==> pass.value <= |passes|)
      modifies this`instructions, this`instructionNumber, this`instOwner
      ensures Valid()
      ensures InstsDone(InstTable(instructions, instructionNumber), events) ==
              InstsWalk(InstTable(old(instructions), old(instructionNumber)), insts, |insts|, blockIndex, pass)
    {
      events := [];
      var k := 0;
      while k < |insts|
        invariant k <= |insts| && Valid()
        invariant InstsDone(InstTable(instructions, instructionNumber), events) ==
                  InstsWalk(InstTable(old(instructions), old(instructionNumber)), insts, k, blockIndex, pass)
      {
        var more := VisitInstruction(insts[k], blockIndex, pass);
        events := events + more;
        k := k + 1;
      }
    }

    /// The block's own entry: a new index if it is untracked, then the
    /// pass stamp or, in the final pass, the final line.
    method EnterBlock(b: BlockId, pass: Option<nat>) returns (index: nat, head: seq<Event>)
      requires Valid() && (pass.Some? ==> pass.value <= |passes|)
      modifies this`blocks, this`blockNumber, this`blockOwner
      ensures Valid()
      ensures EntryDone(BlockTable(blocks, blockNumber), index, head) == BlockEntry(BlockTable(old(blocks), old(blockNumber)), b, pass)
    {
      ghost var counter := blockNumber;
      var info := if b in blocks then blocks[b] else BlockInfo(0, 0);
      head := [];
      if info.passNumber == 0 {
        info := info.(index := blockNumber);
        blockNumber := blockNumber + 1;
        head := [BlockNew(info.index, b)];
      }
      info := info.(passNumber := if pass.Some? then pass.value else info.passNumber);
      head := head + (if pass.None? then [BlockFinal(info.index)] else []);
      BlockTableUpdate(blocks, blockOwner, counter, |passes|, b, info, blockNumber);
      InstTableMoreBlocks(instructions, instOwner, instructionNumber, counter, |passes|, blockNumber);
      blocks := blocks[b := info];
      blockOwner := blockOwner[info.index := b];
      index := info.index;
    }

    /// One block, then its instructions in order.
    method VisitBlock(b: BasicBlock, pass: Option<nat>) returns (events: seq<Event>)
      requires Valid() && (pass.Some? ==> pass.value <= |passes|)
      modifies this`blocks, this`blockNumber, this`blockOwner, this`instructions, this`instructionNumber, this`instOwner
      ensures Valid()
      ensures Walk(BlockTable(blocks, blockNumber), InstTable(instructions, instructionNumber), events) ==
              BlockWalk(BlockTable(old(blocks), old(blockNumber)), InstTable(old(instructions), old(instructionNumber)), b, pass)
    {
      var index, head := EnterBlock(b.id, pass);
      var rest := VisitInstructions(b.insts, index, pass);
      events := head + rest;
    }

    /// The walk over the function's blocks, in order.
    method VisitBody(f: Body, pass: Option<nat>) returns (events: seq<Event>)
      requires Valid() && (pass.Some? ==> pass.value <= |passes|)
      modifies this`blocks, this`blockNumber, this`blockOwner, this`instructions, this`instructionNumber, this`instOwner
      ensures Valid()
      ensures Walk(BlockTable(blocks, blockNumber), InstTable(instructions, instructionNumber), events) ==
              BodyWalk(BlockTable(old(blocks), old(blockNumber)), InstTable(old(instructions), old(instructionNumber)), f, |f|, pass)
    {
      events := [];
      var n := 0;
      while n < |f|
        invariant n <= |f| && Valid()
        invariant Walk(BlockTable(blocks, blockNumber), InstTable(instructions, instructionNumber), events) ==
                  BodyWalk(BlockTable(old(blocks), old(blockNumber)), InstTable(old(instructions), old(instructionNumber)), f, n, pass)
      {
        var more := VisitBlock(f[n], pass);
        events := events + more;
        n := n + 1;
      }
    }

    /// Clear the pass number of every block entry pass `pn` did not see
    /// but an earlier pass did, and return the cleared entries' indices,
    /// sorted.
    method SweepBlocks(pn: nat) returns (deleted: seq<nat>)
      requires Valid()
      modifies this`blocks
      ensures Valid()
      ensures blocks == SweptBlocks(old(blocks), pn)
      ensures deleted == IndicesBelow(StaleBlockIndices(old(blocks), old(blocks).Keys, pn), blockNumber)
    {
      var m, found := SweepBlockTable(blocks, pn, blockOwner, blockNumber, |passes|);
      deleted := SortIndices(found);
      StaleBlockIndicesBelow(old(blocks), blockOwner, blockNumber, |passes|, pn);
      SortedFound(found, deleted, StaleBlockIndices(old(blocks), old(blocks).Keys, pn), blockNumber);
      blocks := m;
    }

    /// The same sweep over the instruction table.
    method SweepInstructions(pn: nat) returns (deleted: seq<nat>)
      requires Valid()
      modifies this`instructions
      ensures Valid()
      ensures instructions == SweptInsts(old(instructions), pn)
      ensures deleted == IndicesBelow(StaleInstIndices(old(instructions), old(instructions).Keys, pn), instructionNumber)
    {
      var m, found := SweepInstTable(instructions, pn, instOwner, instructionNumber, blockNumber, |passes|);
      deleted := SortIndices(found);
      StaleInstIndicesBelow(old(instructions), instOwner, instructionNumber, blockNumber, |passes|, pn);
      SortedFound(found, deleted, StaleInstIndices(old(instructions), old(instructions).Keys, pn), instructionNumber);
      instructions := m;
    }

    /// The logger's state as a value.
    function State(): LogState
      reads this
    {
      LogState(passes, passInstance, BlockTable(blocks, blockNumber), InstTable(instructions, instructionNumber))
    }

    /// Valid tables are bounded.
    lemma StateBounded()
      requires Valid()
      ensures Bounded(State())
    {
      TablesBounded(State(), blockOwner, instOwner);
    }

    /// Count a run of pass `name` and append it to the pass list; its
    /// number is the new length of the list.
    method BeginPass(name: string) returns (pn: nat)
      requires Valid()
      modifies this`passes, this`passInstance
      ensures Valid()
      ensures passes == old(passes) + [LogPassInfo(InstanceOf(old(passInstance), name) + 1, name)]
      ensures passInstance == old(passInstance)[name := InstanceOf(old(passInstance), name) + 1]
      ensures pn == |passes| && passes[pn - 1].instance == NameCount(passes, name)
    {
      var instance := InstanceOf(passInstance, name) + 1;
      PassListAppend(passes, passInstance, name);
      TablesMorePasses(blocks, blockOwner, blockNumber, instructions, instOwner, instructionNumber, |passes|);
      passInstance := passInstance[name := instance];
      passes := passes + [LogPassInfo(instance, name)];
      pn := |passes|;
    }

    /// Clear the stale entries of both tables and write their deletion
    /// lines, blocks first, each group sorted.
    method SweepTables(pn: nat, log: seq<Event>) returns (lines: seq<Event>)
      requires Valid()
      modifies this`blocks, this`instructions
      ensures Valid()
      ensures blocks == SweptBlocks(old(blocks), pn) && instructions == SweptInsts(old(instructions), pn)
      ensures lines == log + BlockDeletedLines(IndicesBelow(StaleBlockIndices(old(blocks), old(blocks).Keys, pn), blockNumber)) +
                       InstDeletedLines(IndicesBelow(StaleInstIndices(old(instructions), old(instructions).Keys, pn), instructionNumber))
    {
      var deletedBlocks := SweepBlocks(pn);
      var deletedInsts := SweepInstructions(pn);
      lines := WriteBlocksDeleted(log, deletedBlocks);
      lines := WriteInstsDeleted(lines, deletedInsts);
    }

    /// The report after pass `name`: count and number the pass, walk the
    /// function, then sweep and report the deleted blocks and
    /// instructions.
    method AfterPass(f: Body, name: string) returns (log: seq<Event>)
      requires Valid()
      modifies this`passes, this`passInstance, this`blocks, this`blockNumber, this`blockOwner,
               this`instructions, this`instructionNumber, this`instOwner
      ensures Valid()
      ensures Logged(State(), log) == AfterPassSpec(old(State()), f, name)
    {
      ghost var s0 := LogState(passes, passInstance, BlockTable(blocks, blockNumber), InstTable(instructions, instructionNumber));
      var pn := BeginPass(name);
      ghost var passes1, passInstance1 := passes, passInstance;
      assert passes1 == s0.passes + [LogPassInfo(InstanceOf(s0.passInstance, name) + 1, name)];
      assert passInstance1 == s0.passInstance[name := InstanceOf(s0.passInstance, name) + 1];
      assert pn == |s0.passes| + 1;
      var walk := VisitBody(f, Some(pn));
      ghost var w := Walk(BlockTable(blocks, blockNumber), InstTable(instructions, instructionNumber), walk);
      assert w == BodyWalk(s0.blocks, s0.insts, f, |f|, Some(|s0.passes| + 1));
      log := SweepTables(pn, [InPass(name)] + walk);
      assert passes == passes1 && passInstance == passInstance1;
      SweepWalkOf(s0, name, w, InstanceOf(s0.passInstance, name) + 1, pn, blocks, blockNumber, instructions, instructionNumber, log);
      assert AfterPassSpec(s0, f, name) == SweepWalk(s0, name, w);
    }

    /// The final report: the walk with no pass number, after the header.
    method FinalPass(f: Body) returns (log: seq<Event>)
      requires Valid()
      modifies this`blocks, this`blockNumber, this`blockOwner, this`instructions, this`instructionNumber, this`instOwner
      ensures Valid()
      ensures Logged(State(), log) == FinalPassSpec(old(State()), f)
    {
      var walk := VisitBody(f, None);
      log := [InFinal] + walk;
    }

    /// The logging pass that runs after pass `passName` on the function
    /// named `fname`: it reports only on the logged function, and only
    /// until the final pass has run. With no function named, the pass is
    /// never created, so it does nothing.
    method RunAfterPass(fname: string, f: Body, passName: string)
      requires Valid()
      modifies this`passes, this`passInstance, this`blocks, this`blockNumber, this`blockOwner,
               this`instructions, this`instructionNumber, this`instOwner, this`output
      ensures Valid() && finalPassSeen == old(finalPassSeen)
      ensures var r := if functionToLog != "" && !finalPassSeen && fname == functionToLog
                       then AfterPassSpec(old(State()), f, passName) else Logged(old(State()), []);
              State() == r.state && output == old(output) + r.events
    {
      if functionToLog != "" && !finalPassSeen && fname == functionToLog {
        var log := AfterPass(f, passName);
        output := output + log;
      }
    }

    /// The final logging pass: the final report on the logged function
    /// unless a final pass ran before; after it no pass reports again.
    method RunFinalPass(fname: string, f: Body)
      requires Valid()
      modifies this`blocks, this`blockNumber, this`blockOwner, this`instructions, this`instructionNumber, this`instOwner,
               this`finalPassSeen, this`output
      ensures Valid() && finalPassSeen == (old(finalPassSeen) || functionToLog != "")
      ensures var r := if functionToLog != "" && !old(finalPassSeen) && fname == functionToLog
                       then FinalPassSpec(old(State()), f) else Logged(old(State()), []);
              State() == r.state && output == old(output) + r.events
    {
      if functionToLog != "" {
        if !finalPassSeen && fname == functionToLog {
          var log := FinalPass(f);
          output := output + log;
        }
        finalPassSeen := true;
      }
    }
  }
}
