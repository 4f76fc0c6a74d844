// Joining isolated components (FlowAdjuster::joinIsolatedComponents): every
// block with positive flow that the entry does not reach along positive-flow
// jumps gets one more unit of flow along a path entry -> block -> exit.
module FlowJoin {
  import opened Util
  import opened FlowGraph
  import opened FlowPaths
  import opened FlowShortestPath
  import opened FlowVerify
  import opened FlowPush

  /// The marked blocks hold the entry, are closed under positive-flow jumps,
  /// and are all reached from the entry.
  ghost predicate ReachInv(jumps: seq<FlowJump>, entry: nat, visited: seq<bool>)
  {
    entry < |visited| && visited[entry] && Closed(jumps, visited) &&
    forall v :: 0 <= v < |visited| && visited[v] ==> Reaches(jumps, entry, v)
  }

  /// `b` differs from `a` only in block flows, none of which decreased.
  ghost predicate BlocksGrown(a: seq<FlowBlock>, b: seq<FlowBlock>)
  {
    |b| == |a| && forall k :: 0 <= k < |a| ==> b[k] == a[k].(flow := b[k].flow) && b[k].flow >= a[k].flow
  }

  /// `b` differs from `a` only in jump flows, none of which decreased.
  ghost predicate JumpsGrown(a: seq<FlowJump>, b: seq<FlowJump>)
  {
    SameEnds(a, b) && forall j :: 0 <= j < |a| ==> b[j].flow >= a[j].flow
  }

  lemma GrownRefl(bs: seq<FlowBlock>, js: seq<FlowJump>)
    ensures BlocksGrown(bs, bs) && JumpsGrown(js, js)
  {
  }

  lemma {:induction false} BlocksGrownTransitive(a: seq<FlowBlock>, b: seq<FlowBlock>, c: seq<FlowBlock>)
    requires BlocksGrown(a, b) && BlocksGrown(b, c)
    ensures BlocksGrown(a, c)
  {
  }

  lemma {:induction false} JumpsGrownTransitive(a: seq<FlowJump>, b: seq<FlowJump>, c: seq<FlowJump>)
    requires JumpsGrown(a, b) && JumpsGrown(b, c)
    ensures JumpsGrown(a, c)
  {
  }

  lemma {:induction false} AllPositiveAppend(jumps: seq<FlowJump>, p: seq<nat>, q: seq<nat>)
    requires AllPositive(jumps, p) && AllPositive(jumps, q)
    ensures AllPositive(jumps, p + q)
  {
    forall k | 0 <= k < |p + q| && (p + q)[k] < |jumps| ensures jumps[(p + q)[k]].flow > 0 {
      if k >= |p| {
        assert (p + q)[k] == q[k - |p|];
      }
    }
  }

  /// One step of pushing a unit along a path: jump `j` (leaving a marked
  /// block) gains a unit and the search from its target marks more blocks;
  /// the marked blocks keep the invariant.
  lemma {:induction false} SearchStep(J: seq<FlowJump>, J': seq<FlowJump>, j: nat, entry: nat, V: seq<bool>, W: seq<bool>)
    requires forall i :: 0 <= i < |J| ==> J[i].source < |V| && J[i].target < |V|
    requires j < |J| && J[j].flow >= 0 && J' == BumpJump(J, j)
    requires ReachInv(J, entry, V) && V[J[j].source]
    requires |W| == |V| && W[J[j].target]
    requires forall v :: 0 <= v < |V| && V[v] ==> W[v]
    requires forall v :: 0 <= v < |V| && W[v] && !V[v] ==> Reaches(J', J[j].target, v)
    requires forall i :: 0 <= i < |J'| && J'[i].flow > 0 && W[J'[i].source] && !V[J'[i].source] ==> W[J'[i].target]
    ensures ReachInv(J', entry, W)
  {
    ClosedStep(J, J', j, V, W);
    SoundStep(J, J', j, entry, V, W);
  }

  lemma {:induction false} ClosedStep(J: seq<FlowJump>, J': seq<FlowJump>, j: nat, V: seq<bool>, W: seq<bool>)
    requires forall i :: 0 <= i < |J| ==> J[i].source < |V| && J[i].target < |V|
    requires j < |J| && J' == BumpJump(J, j) && Closed(J, V)
    requires |W| == |V| && W[J[j].target]
    requires forall v :: 0 <= v < |V| && V[v] ==> W[v]
    requires forall i :: 0 <= i < |J'| && J'[i].flow > 0 && W[J'[i].source] && !V[J'[i].source] ==> W[J'[i].target]
    ensures Closed(J', W)
  {
    forall i | 0 <= i < |J'| && J'[i].flow > 0 && J'[i].source < |W| && W[J'[i].source]
      ensures J'[i].target < |W| && W[J'[i].target]
    {
      if V[J'[i].source] && i != j {
        assert J'[i] == J[i];
      }
    }
  }

  lemma {:induction false} SoundStep(J: seq<FlowJump>, J': seq<FlowJump>, j: nat, entry: nat, V: seq<bool>, W: seq<bool>)
    requires j < |J| && J[j].flow >= 0 && J' == BumpJump(J, j)
    requires forall v :: 0 <= v < |V| && V[v] ==> Reaches(J, entry, v)
    requires J[j].source < |V| && V[J[j].source]
    requires |W| == |V|
    requires forall v :: 0 <= v < |V| && W[v] && !V[v] ==> Reaches(J', J[j].target, v)
    ensures forall v :: 0 <= v < |W| && W[v] ==> Reaches(J', entry, v)
  {
    var s, t := J[j].source, J[j].target;
    assert SameEnds(J, J');
    var p :| IsPath(J, entry, s, p) && AllPositive(J, p);
    PathFlowsIncrease(J, J', entry, s, p);
    PathSnoc(J', entry, s, p, j);
    AllPositiveAppend(J', p, [j]);
    forall v | 0 <= v < |W| && W[v] ensures Reaches(J', entry, v) {
      if V[v] {
        var q :| IsPath(J, entry, v, q) && AllPositive(J, q);
        PathFlowsIncrease(J, J', entry, v, q);
      } else {
        var q :| IsPath(J', t, v, q) && AllPositive(J', q);
        PathAppend(J', entry, t, v, p + [j], q);
        AllPositiveAppend(J', p + [j], q);
      }
    }
  }

  /// Jump `j` and its target block gain one unit.
  method Bump(f: FlowFunction, j: nat)
    requires f.Valid() && j < |f.jumps|
    modifies f
    ensures f.Valid() && f.entry == old(f.entry)
    ensures f.jumps == BumpJump(old(f.jumps), j)
    ensures f.blocks == BumpBlock(old(f.blocks), old(f.jumps)[j].target)
  {
    var t := f.jumps[j].target;
    f.jumps := BumpJump(f.jumps, j);
    f.blocks := BumpBlock(f.blocks, t);
  }

  /// One iteration of the loop over the path: jump `j` and its target gain a
  /// unit, then the search continues from the target.
  method PushUnit(f: FlowFunction, j: nat, visited0: seq<bool>) returns (visited: seq<bool>)
    requires f.Valid() && j < |f.jumps| && f.jumps[j].flow >= 0 && |visited0| == |f.blocks|
    requires ReachInv(f.jumps, f.entry, visited0) && visited0[f.jumps[j].source]
    modifies f
    ensures f.Valid() && f.entry == old(f.entry)
    ensures f.jumps == BumpJump(old(f.jumps), j)
    ensures f.blocks == BumpBlock(old(f.blocks), old(f.jumps)[j].target)
    ensures |visited| == |visited0| && ReachInv(f.jumps, f.entry, visited) && visited[old(f.jumps)[j].target]
    ensures forall v :: 0 <= v < |visited0| && visited0[v] ==> visited[v]
  {
    ghost var jumps := f.jumps;
    var t := f.jumps[j].target;
    Bump(f, j);
    visited := FindReachable(f.jumps, t, visited0);
    SearchStep(jumps, f.jumps, j, f.entry, visited0, visited);
  }

  /// The loop over the path in joinIsolatedComponents: each jump of the path
  /// and its target block gain one unit, and the search continues from each
  /// target. Returns the new marks.
  method PushUnitAlong(f: FlowFunction, path: seq<nat>, ghost x: nat, visited0: seq<bool>) returns (visited: seq<bool>)
    requires f.Valid() && |visited0| == |f.blocks|
    requires IsPath(f.jumps, f.entry, x, path) && ReachInv(f.jumps, f.entry, visited0)
    requires forall j :: 0 <= j < |f.jumps| ==> f.jumps[j].flow >= 0
    modifies f
    ensures f.Valid() && f.entry == old(f.entry)
    ensures f.jumps == PushedJumps(old(f.jumps), path, |path|)
    ensures f.blocks == PushedBlocks(old(f.blocks), old(f.jumps), path, |path|)
    ensures |visited| == |visited0| && ReachInv(f.jumps, f.entry, visited)
    ensures forall v :: 0 <= v < |visited0| && visited0[v] ==> visited[v]
    ensures forall k :: 0 <= k < |path| ==> visited[old(f.jumps)[path[k]].target]
  {
    ghost var J0, B0 := f.jumps, f.blocks;
    visited := visited0;
    var k := 0;
    while k < |path|
      invariant 0 <= k <= |path| && f.Valid() && f.entry == old(f.entry)
      invariant AlongInv(J0, B0, f.entry, x, path, k, visited0, f.jumps, f.blocks, visited)
    {
      ghost var J1, B1, V1 := f.jumps, f.blocks, visited;
      AlongPre(J0, B0, f.entry, x, path, k, visited0, J1, B1, V1);
      visited := PushUnit(f, path[k], visited);
      AlongStep(J0, B0, f.entry, x, path, k, visited0, J1, B1, V1, f.jumps, f.blocks, visited);
      k := k + 1;
    }
  }

  /// The invariant of the loop over the path after `k` of its jumps.
  ghost predicate AlongInv(J0: seq<FlowJump>, B0: seq<FlowBlock>, entry: nat, x: nat, path: seq<nat>, k: nat,
                           visited0: seq<bool>, J: seq<FlowJump>, B: seq<FlowBlock>, visited: seq<bool>)
  {
    && k <= |path| && IsPath(J0, entry, x, path)
    && (forall j :: 0 <= j < |J0| ==> J0[j].source < |B0| && J0[j].target < |B0|)
    && |visited0| == |B0| && |visited| == |B0|
    && J == PushedJumps(J0, path, k) && B == PushedBlocks(B0, J0, path, k)
    && (forall j :: 0 <= j < |J0| ==> J[j].source == J0[j].source && J[j].target == J0[j].target && J[j].flow >= 0)
    && ReachInv(J, entry, visited)
    && (forall v :: 0 <= v < |visited0| && visited0[v] ==> visited[v])
    && (forall m :: 0 <= m < k ==> visited[J0[path[m]].target])
    && (k < |path| ==> visited[J0[path[k]].source])
  }

  /// The next jump of the path can be pushed.
  lemma {:induction false} AlongPre(J0: seq<FlowJump>, B0: seq<FlowBlock>, entry: nat, x: nat, path: seq<nat>, k: nat,
                                    visited0: seq<bool>, J: seq<FlowJump>, B: seq<FlowBlock>, visited: seq<bool>)
    requires AlongInv(J0, B0, entry, x, path, k, visited0, J, B, visited) && k < |path|
    ensures path[k] < |J| && J[path[k]].flow >= 0 && visited[J[path[k]].source]
  {
  }

  /// Pushing the next jump of the path keeps the loop invariant.
  lemma {:induction false} AlongStep(J0: seq<FlowJump>, B0: seq<FlowBlock>, entry: nat, x: nat, path: seq<nat>, k: nat,
                                     visited0: seq<bool>, J1: seq<FlowJump>, B1: seq<FlowBlock>, V1: seq<bool>,
                                     J2: seq<FlowJump>, B2: seq<FlowBlock>, V2: seq<bool>)
    requires AlongInv(J0, B0, entry, x, path, k, visited0, J1, B1, V1) && k < |path| && path[k] < |J1|
    requires J2 == BumpJump(J1, path[k]) && B2 == BumpBlock(B1, J1[path[k]].target)
    requires |V2| == |V1| && ReachInv(J2, entry, V2) && V2[J1[path[k]].target]
    requires forall v :: 0 <= v < |V1| && V1[v] ==> V2[v]
    ensures AlongInv(J0, B0, entry, x, path, k + 1, visited0, J2, B2, V2)
  {
    if k + 1 < |path| {
      assert J0[path[k]].target == J0[path[k + 1]].source;
    }
  }

  /// Block `b` lies on a path from `e` to an exit whose two halves, from
  /// `e` to `b` and from `b` to the exit, are each shorter than INF for the
  /// search.
  ghost predicate Joinable(blocks: seq<FlowBlock>, jumps: seq<FlowJump>, e: nat, b: nat)
  {
    && (exists p :: IsPath(jumps, e, b, p) && PathLength(blocks, jumps, p) < MinCostFlowSolver.INF)
    && (exists x: nat, q :: IsExit(jumps, x) && IsPath(jumps, b, x, q) && PathLength(blocks, jumps, q) < MinCostFlowSolver.INF)
  }

  /// A jump gets no longer for the search when flows grow: more flow on it
  /// only shortens it, and nothing else it depends on changes.
  lemma {:induction false} JumpLengthShrinks(B0: seq<FlowBlock>, J0: seq<FlowJump>, B1: seq<FlowBlock>, J1: seq<FlowJump>, j: nat)
    requires BlocksGrown(B0, B1) && JumpsGrown(J0, J1)
    ensures JumpLength(B1, J1, j) <= JumpLength(B0, J0, j)
  {
    if j < |J0| && J0[j].target < |B0| {
      assert B1[J0[j].target].weight == B0[J0[j].target].weight;
    }
  }

  /// So does a whole path.
  lemma {:induction false} PathLengthShrinks(B0: seq<FlowBlock>, J0: seq<FlowJump>, B1: seq<FlowBlock>, J1: seq<FlowJump>, p: seq<nat>)
    requires BlocksGrown(B0, B1) && JumpsGrown(J0, J1)
    ensures PathLength(B1, J1, p) <= PathLength(B0, J0, p)
    decreases |p|
  {
    if p != [] {
      JumpLengthShrinks(B0, J0, B1, J1, p[0]);
      PathLengthShrinks(B0, J0, B1, J1, p[1..]);
    }
  }

  /// A joinable block stays joinable as flows grow.
  lemma {:induction false} JoinableGrown(B0: seq<FlowBlock>, J0: seq<FlowJump>, B1: seq<FlowBlock>, J1: seq<FlowJump>, e: nat, b: nat)
    requires BlocksGrown(B0, B1) && JumpsGrown(J0, J1) && Joinable(B0, J0, e, b)
    ensures Joinable(B1, J1, e, b)
  {
    var p :| IsPath(J0, e, b, p) && PathLength(B0, J0, p) < MinCostFlowSolver.INF;
    var x: nat, q :| IsExit(J0, x) && IsPath(J0, b, x, q) && PathLength(B0, J0, q) < MinCostFlowSolver.INF;
    PathLengthShrinks(B0, J0, B1, J1, p);
    PathLengthShrinks(B0, J0, B1, J1, q);
    EntryExitSameEnds(J0, J1, x);
    assert IsPath(J1, e, b, p) && IsPath(J1, b, x, q);
  }

  /// A joinable block has a path from `e` to it and a path from it to an
  /// exit, each shorter than INF: neither search for a half of the path
  /// through it can come back empty.
  lemma {:induction false} JoinableSearchable(blocks: seq<FlowBlock>, jumps: seq<FlowJump>, e: nat, b: nat)
    requires Joinable(blocks, jumps, e, b)
    ensures !NoShorterGoalPath(blocks, jumps, e, b, MinCostFlowSolver.INF)
    ensures !NoShorterGoalPath(blocks, jumps, b, ANY_EXIT, MinCostFlowSolver.INF)
  {
    var p :| IsPath(jumps, e, b, p) && PathLength(blocks, jumps, p) < MinCostFlowSolver.INF;
    var x: nat, q :| IsExit(jumps, x) && IsPath(jumps, b, x, q) && PathLength(blocks, jumps, q) < MinCostFlowSolver.INF;
    assert IsGoal(jumps, b, b) && IsGoal(jumps, ANY_EXIT, x);
  }

  /// joinIsolatedComponents. `complete` is false when no path through some
  /// isolated block was found; that block is then left as it is. Every
  /// block with flow at the start being joinable makes the join complete.
  method JoinIsolatedComponents(f: FlowFunction) returns (complete: bool)
    requires f.Valid() && forall j :: 0 <= j < |f.jumps| ==> f.jumps[j].flow >= 0
    modifies f
    ensures f.Valid() && f.entry == old(f.entry)
    ensures JumpsGrown(old(f.jumps), f.jumps) && BlocksGrown(old(f.blocks), f.blocks)
    ensures complete ==> forall b :: 0 <= b < |f.blocks| && f.blocks[b].flow > 0 ==> Reaches(f.jumps, f.entry, b)
    ensures IsEntry(old(f.jumps), f.entry) ==> (Balanced(f.blocks, f.jumps) <==> Balanced(old(f.blocks), old(f.jumps)))
    ensures AllJoinable(old(f.blocks), old(f.jumps), f.entry) ==> complete
  {
    ghost var J0, B0 := f.jumps, f.blocks;
    var n := |f.blocks|;
    var visited := FindReachable(f.jumps, f.entry, seq(n, _ => false));
    complete := true;
    var i := 0;
    while i < n
      invariant 0 <= i <= n && f.Valid() && f.entry == old(f.entry) && |visited| == n
      invariant JumpsGrown(J0, f.jumps) && BlocksGrown(B0, f.blocks)
      invariant ReachInv(f.jumps, f.entry, visited)
      invariant complete ==> forall b :: 0 <= b < i && f.blocks[b].flow > 0 ==> visited[b]
      invariant IsEntry(J0, f.entry) ==> IsEntry(f.jumps, f.entry) && (Balanced(f.blocks, f.jumps) <==> Balanced(B0, J0))
      invariant forall b :: 0 <= b < n && f.blocks[b].flow != B0[b].flow ==> visited[b]
      invariant AllJoinable(B0, J0, f.entry) ==> complete
    {
      var found;
      ghost var J1, B1, V1 := f.jumps, f.blocks, visited;
      visited, found := JoinBlock(f, i, visited);
      if !found && AllJoinable(B0, J0, f.entry) {
        JoinableGrown(B0, J0, B1, J1, f.entry, i);
      }
      if IsEntry(J0, f.entry) && B1[i].flow > 0 && !V1[i] && found {
        JoinedKeepsBalance(B1, J1, f.entry, i, f.blocks, f.jumps);
      }
      JumpsGrownTransitive(J0, J1, f.jumps);
      BlocksGrownTransitive(B0, B1, f.blocks);
      complete := complete && found;
      i := i + 1;
    }
  }

  /// Every block with flow is joinable.
  ghost predicate AllJoinable(blocks: seq<FlowBlock>, jumps: seq<FlowJump>, e: nat)
  {
    forall b :: 0 <= b < |blocks| && blocks[b].flow > 0 ==> Joinable(blocks, jumps, e, b)
  }

  /// The body of the loop of joinIsolatedComponents for block `i`: a block
  /// with flow that the entry does not reach gets one more unit on the
  /// entry and on each jump of a path from the entry through it to an
  /// exit. `found` is false when there is no such path.
  method JoinBlock(f: FlowFunction, i: nat, visited0: seq<bool>) returns (visited: seq<bool>, found: bool)
    requires f.Valid() && i < |f.blocks| && |visited0| == |f.blocks| && ReachInv(f.jumps, f.entry, visited0)
    requires forall j :: 0 <= j < |f.jumps| ==> f.jumps[j].flow >= 0
    modifies f
    ensures f.Valid() && f.entry == old(f.entry)
    ensures JumpsGrown(old(f.jumps), f.jumps) && BlocksGrown(old(f.blocks), f.blocks)
    ensures |visited| == |visited0| && ReachInv(f.jumps, f.entry, visited)
    ensures found && (forall b :: 0 <= b < i && old(f.blocks[b]).flow > 0 ==> visited0[b]) ==>
      forall b :: 0 <= b <= i && f.blocks[b].flow > 0 ==> visited[b]
    ensures old(f.blocks[i]).flow > 0 && !visited0[i] && found ==>
      JoinedThrough(old(f.blocks), old(f.jumps), f.entry, i, f.blocks, f.jumps)
    ensures !(old(f.blocks[i]).flow > 0 && !visited0[i] && found) ==> f.blocks == old(f.blocks) && f.jumps == old(f.jumps)
    ensures !found ==> old(f.blocks[i]).flow > 0 && !visited0[i] && !Joinable(old(f.blocks), old(f.jumps), f.entry, i)
    ensures forall v :: 0 <= v < |visited0| && visited0[v] ==> visited[v]
    ensures forall b :: 0 <= b < |visited| && f.blocks[b].flow != old(f.blocks[b]).flow ==> visited[b]
  {
    visited, found := visited0, true;
    if f.blocks[i].flow <= 0 || visited[i] {
      GrownRefl(f.blocks, f.jumps);
      return;
    }
    var path := FindShortestPathThrough(f.blocks, f.jumps, f.entry, i);
    if path.None? {
      GrownRefl(f.blocks, f.jumps);
      if Joinable(f.blocks, f.jumps, f.entry, i) {
        JoinableSearchable(f.blocks, f.jumps, f.entry, i);
      }
      found := false;
      return;
    }
    assert i != f.entry;
    visited := JoinAlong(f, i, path.value, visited0);
  }

  /// The join itself, once a path from the entry through block `i` to an
  /// exit is known: one more unit on the entry and on each jump of the path.
  method JoinAlong(f: FlowFunction, i: nat, path: seq<nat>, visited0: seq<bool>) returns (visited: seq<bool>)
    requires f.Valid() && i < |f.blocks| && i != f.entry && |visited0| == |f.blocks| && ReachInv(f.jumps, f.entry, visited0)
    requires forall j :: 0 <= j < |f.jumps| ==> f.jumps[j].flow >= 0
    requires exists x :: 0 <= x < |f.blocks| && IsExit(f.jumps, x) && IsPath(f.jumps, f.entry, x, path)
    requires exists k :: 0 <= k < |path| && f.jumps[path[k]].target == i
    modifies f
    ensures f.Valid() && f.entry == old(f.entry)
    ensures JumpsGrown(old(f.jumps), f.jumps) && BlocksGrown(old(f.blocks), f.blocks)
    ensures |visited| == |visited0| && ReachInv(f.jumps, f.entry, visited)
    ensures (forall b :: 0 <= b < i && old(f.blocks[b]).flow > 0 ==> visited0[b]) ==>
      forall b :: 0 <= b <= i && f.blocks[b].flow > 0 ==> visited[b]
    ensures JoinedThrough(old(f.blocks), old(f.jumps), f.entry, i, f.blocks, f.jumps)
    ensures forall v :: 0 <= v < |visited0| && visited0[v] ==> visited[v]
    ensures forall b :: 0 <= b < |visited| && f.blocks[b].flow != old(f.blocks[b]).flow ==> visited[b]
  {
    ghost var B0, J0 := f.blocks, f.jumps;
    ghost var x :| 0 <= x < |B0| && IsExit(J0, x) && IsPath(J0, f.entry, x, path);
    visited := PushEntryAndPath(f, i, path, visited0);
    assert JoinedAlong(B0, J0, f.entry, i, x, path, f.blocks, f.jumps);
    if forall b :: 0 <= b < i && B0[b].flow > 0 ==> visited0[b] {
      StillVisited(B0, f.blocks, visited0, visited, i);
    }
  }

  /// `B1`, `J1` are `B0`, `J0` with one more unit on the entry `e` and on
  /// each jump of `path`, a nonempty path from `e` through block `i` to the
  /// exit `x`.
  ghost predicate JoinedAlong(B0: seq<FlowBlock>, J0: seq<FlowJump>, e: nat, i: nat, x: nat, path: seq<nat>,
                              B1: seq<FlowBlock>, J1: seq<FlowJump>)
  {
    && e < |B0| && IsExit(J0, x) && IsPath(J0, e, x, path) && path != []
    && (exists k :: 0 <= k < |path| && J0[path[k]].target == i)
    && J1 == PushedJumps(J0, path, |path|) && B1 == JoinedBlocks(B0, J0, e, path)
  }

  /// Block `i` was joined along some path.
  ghost predicate JoinedThrough(B0: seq<FlowBlock>, J0: seq<FlowJump>, e: nat, i: nat, B1: seq<FlowBlock>, J1: seq<FlowJump>)
  {
    exists x, path :: JoinedAlong(B0, J0, e, i, x, path, B1, J1)
  }

  /// Joining a block keeps a balanced flow balanced, and the entry an entry.
  lemma {:induction false} JoinedKeepsBalance(B0: seq<FlowBlock>, J0: seq<FlowJump>, e: nat, i: nat,
                                              B1: seq<FlowBlock>, J1: seq<FlowJump>)
    requires GraphOk(B0, J0, e) && IsEntry(J0, e) && JoinedThrough(B0, J0, e, i, B1, J1)
    ensures Balanced(B1, J1) <==> Balanced(B0, J0)
    ensures IsEntry(J1, e)
  {
    var x, path :| JoinedAlong(B0, J0, e, i, x, path, B1, J1);
    PushPathKeepsBalance(B0, J0, e, x, path);
    PushedSameEnds(J0, path);
    EntryExitSameEnds(J0, J1, e);
  }

  /// After block `i` is joined, every block up to `i` with flow is marked.
  lemma {:induction false} StillVisited(B0: seq<FlowBlock>, B1: seq<FlowBlock>, visited0: seq<bool>, visited: seq<bool>, i: nat)
    requires |B1| == |B0| && |visited0| == |B0| && |visited| == |B0| && i < |B0| && visited[i]
    requires forall b :: 0 <= b < |B0| && visited0[b] ==> visited[b]
    requires forall b :: 0 <= b < |B0| && B1[b].flow != B0[b].flow ==> visited[b]
    requires forall b :: 0 <= b < i && B0[b].flow > 0 ==> visited0[b]
    ensures forall b :: 0 <= b <= i && B1[b].flow > 0 ==> visited[b]
  {
  }

  /// One more unit on the entry and along `path`.
  method PushEntryAndPath(f: FlowFunction, i: nat, path: seq<nat>, visited0: seq<bool>) returns (visited: seq<bool>)
    requires f.Valid() && i < |f.blocks| && |visited0| == |f.blocks| && ReachInv(f.jumps, f.entry, visited0)
    requires forall j :: 0 <= j < |f.jumps| ==> f.jumps[j].flow >= 0
    requires exists x :: IsPath(f.jumps, f.entry, x, path)
    requires i != f.entry ==> exists k :: 0 <= k < |path| && f.jumps[path[k]].target == i
    modifies f
    ensures f.Valid() && f.entry == old(f.entry)
    ensures JumpsGrown(old(f.jumps), f.jumps) && BlocksGrown(old(f.blocks), f.blocks)
    ensures |visited| == |visited0| && ReachInv(f.jumps, f.entry, visited) && visited[i]
    ensures forall b :: 0 <= b < |visited| && f.blocks[b].flow != old(f.blocks[b]).flow ==> visited[b]
    ensures forall b :: 0 <= b < |visited| && visited0[b] ==> visited[b]
    ensures f.jumps == PushedJumps(old(f.jumps), path, |path|)
    ensures f.blocks == JoinedBlocks(old(f.blocks), old(f.jumps), f.entry, path)
  {
    ghost var J0, B0 := f.jumps, f.blocks;
    ghost var x :| IsPath(f.jumps, f.entry, x, path);
    var e := f.entry;
    BumpEntry(f);
    ghost var B1 := f.blocks;
    visited := PushAlong(f, path, x, visited0);
    BlocksGrownTransitive(B0, B1, f.blocks);
    ChangedMarked(B0, B1, f.blocks, visited, e);
    if i != e {
      ghost var k :| 0 <= k < |path| && J0[path[k]].target == i;
    }
  }

  /// The entry block gains one unit.
  method BumpEntry(f: FlowFunction)
    requires f.Valid()
    modifies f
    ensures f.Valid() && f.entry == old(f.entry) && f.jumps == old(f.jumps)
    ensures f.blocks == BumpBlock(old(f.blocks), f.entry)
  {
    f.blocks := f.blocks[f.entry := f.blocks[f.entry].(flow := f.blocks[f.entry].flow + 1)];
  }

  /// PushUnitAlong, summarised: flows only grow, and every block whose flow
  /// changed and every target on the path is marked.
  method PushAlong(f: FlowFunction, path: seq<nat>, ghost x: nat, visited0: seq<bool>) returns (visited: seq<bool>)
    requires f.Valid() && |visited0| == |f.blocks|
    requires IsPath(f.jumps, f.entry, x, path) && ReachInv(f.jumps, f.entry, visited0)
    requires forall j :: 0 <= j < |f.jumps| ==> f.jumps[j].flow >= 0
    modifies f
    ensures f.Valid() && f.entry == old(f.entry)
    ensures JumpsGrown(old(f.jumps), f.jumps) && BlocksGrown(old(f.blocks), f.blocks)
    ensures |visited| == |visited0| && ReachInv(f.jumps, f.entry, visited)
    ensures forall v :: 0 <= v < |visited0| && visited0[v] ==> visited[v]
    ensures forall k :: 0 <= k < |path| ==> visited[old(f.jumps)[path[k]].target]
    ensures forall b :: 0 <= b < |visited| && f.blocks[b].flow != old(f.blocks[b]).flow ==> visited[b]
    ensures f.jumps == PushedJumps(old(f.jumps), path, |path|)
    ensures f.blocks == PushedBlocks(old(f.blocks), old(f.jumps), path, |path|)
  {
    ghost var J0, B0 := f.jumps, f.blocks;
    visited := PushUnitAlong(f, path, x, visited0);
    PushedJumpsGrow(J0, path);
    PushedBlocksGrow(B0, J0, path, visited);
  }

  /// A block whose flow changed in either of two steps, the first of which
  /// changed only block `e`, is marked.
  lemma {:induction false} ChangedMarked(B0: seq<FlowBlock>, B1: seq<FlowBlock>, B2: seq<FlowBlock>, visited: seq<bool>, e: nat)
    requires |B1| == |B0| && |B2| == |B0| && |visited| == |B0| && e < |B0| && visited[e]
    requires forall b :: 0 <= b < |B0| && b != e ==> B1[b] == B0[b]
    requires forall b :: 0 <= b < |B0| && B2[b].flow != B1[b].flow ==> visited[b]
    ensures forall b :: 0 <= b < |B0| && B2[b].flow != B0[b].flow ==> visited[b]
  {
  }

  /// Pushing along a path changes only flows, and none decreases.
  lemma {:induction false} PushedJumpsGrow(jumps: seq<FlowJump>, path: seq<nat>)
    ensures JumpsGrown(jumps, PushedJumps(jumps, path, |path|))
  {
    PushedJumpsCount(jumps, path, |path|);
  }

  /// Pushing along a path changes only flows, none decreases, and only the
  /// targets of its jumps change.
  lemma {:induction false} PushedBlocksGrow(blocks: seq<FlowBlock>, jumps: seq<FlowJump>, path: seq<nat>, visited: seq<bool>)
    requires |visited| == |blocks| && forall j :: 0 <= j < |jumps| ==> jumps[j].target < |blocks|
    requires forall k :: 0 <= k < |path| && path[k] < |jumps| ==> visited[jumps[path[k]].target]
    ensures BlocksGrown(blocks, PushedBlocks(blocks, jumps, path, |path|))
    ensures forall b :: 0 <= b < |blocks| && PushedBlocks(blocks, jumps, path, |path|)[b].flow != blocks[b].flow ==> visited[b]
  {
    PushedBlocksCount(blocks, jumps, path, |path|);
    forall b | 0 <= b < |blocks| && PushedBlocks(blocks, jumps, path, |path|)[b].flow != blocks[b].flow
      ensures visited[b]
    {
      assert TargetHits(jumps, path, |path|, b) > 0;
      TargetHitsWitness(jumps, path, |path|, b);
    }
  }

}
