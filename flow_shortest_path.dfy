// Dijkstra's search for the path that joinIsolatedComponents pushes one
// unit of flow along (FlowAdjuster::findShortestPath and jumpDistance).
module FlowShortestPath {
  import opened Util
  import opened FlowGraph
  import opened FlowPaths
  import MinCostFlowSolver

  /// The "any exit block" target of a search.
  const ANY_EXIT: int := -1

  /// Distance of a jump that has no better description.
  const BASE_DISTANCE: int := 100

  /// Length of a jump for the search: unlikely jumps are very long, jumps
  /// carrying much flow are short, jumps into blocks with samples are
  /// cheaper than jumps into blocks without.
  function JumpDistance(blocks: seq<FlowBlock>, jmp: FlowJump): (d: nat)
    requires jmp.target < |blocks|
    ensures d == 0 <==> !jmp.isUnlikely && jmp.flow >= BASE_DISTANCE
    ensures jmp.isUnlikely || jmp.flow > 0 || blocks[jmp.target].weight > 0 ==> d <= MinCostFlowSolver.AUX_COST_UNLIKELY
  {
    if jmp.isUnlikely then MinCostFlowSolver.AUX_COST_UNLIKELY
    else if jmp.flow > 0 then Max(BASE_DISTANCE - jmp.flow, 0)
    else if blocks[jmp.target].weight > 0 then BASE_DISTANCE
    else BASE_DISTANCE * (|blocks| + 1)
  }

  /// The longest a single jump can be for the search.
  function MaxJumpDistance(n: nat): nat
  {
    Max(MinCostFlowSolver.AUX_COST_UNLIKELY, BASE_DISTANCE * (n + 1))
  }

  /// A path of `k` jumps is at most `k` times the longest jump: a path with
  /// fewer than INF / MaxJumpDistance jumps is always found.
  lemma {:induction false} PathLengthBound(blocks: seq<FlowBlock>, jumps: seq<FlowJump>, path: seq<nat>)
    ensures PathLength(blocks, jumps, path) <= |path| * MaxJumpDistance(|blocks|)
    decreases |path|
  {
    if path != [] {
      var m := MaxJumpDistance(|blocks|);
      PathLengthBound(blocks, jumps, path[1..]);
      assert JumpLength(blocks, jumps, path[0]) <= m;
      assert |path| * m == |path[1..]| * m + m;
    }
  }

  /// `u` comes before `w` in the search queue: by distance, then by index.
  predicate Before(dist: seq<nat>, u: nat, w: nat)
    requires u < |dist| && w < |dist|
  {
    dist[u] < dist[w] || (dist[u] == dist[w] && u <= w)
  }

  /// The first block of the queue (the beginning of the ordered set).
  method First(queue: set<nat>, dist: seq<nat>) returns (u: nat)
    requires queue != {} && forall v :: v in queue ==> v < |dist|
    ensures u in queue && forall w :: w in queue ==> Before(dist, u, w)
  {
    u :| u in queue;
    var rest := queue - {u};
    while rest != {}
      invariant rest <= queue && u in queue && u !in rest
      invariant forall w :: w in queue && w !in rest ==> Before(dist, u, w)
      decreases rest
    {
      var w :| w in rest;
      if !Before(dist, u, w) {
        u := w;
      }
      rest := rest - {w};
    }
  }

  /// Sum of the tentative distances; every improvement lowers it.
  function SumDist(dist: seq<nat>): nat
  {
    if dist == [] then 0 else SumDist(dist[..|dist| - 1]) + dist[|dist| - 1]
  }

  lemma {:induction false} SumDistUpdate(dist: seq<nat>, v: nat, x: nat)
    requires v < |dist|
    ensures SumDist(dist[v := x]) == SumDist(dist) - dist[v] + x
    decreases |dist|
  {
    var last := |dist| - 1;
    if v < last {
      assert dist[v := x][..last] == dist[..last][v := x];
      SumDistUpdate(dist[..last], v, x);
    } else {
      assert dist[v := x][..last] == dist[..last];
    }
  }

  /// Parent links name jumps into their block.
  predicate ParentsOk(jumps: seq<FlowJump>, parent: seq<int>)
  {
    forall v :: 0 <= v < |parent| ==> parent[v] == -1 || (0 <= parent[v] < |jumps| && jumps[parent[v]].target == v)
  }

  /// The distance of jump `j`, as the search counts it.
  function JumpLength(blocks: seq<FlowBlock>, jumps: seq<FlowJump>, j: nat): nat
  {
    if j < |jumps| && jumps[j].target < |blocks| then JumpDistance(blocks, jumps[j]) else 0
  }

  /// The length of a path for the search: the sum of its jumps' distances.
  function PathLength(blocks: seq<FlowBlock>, jumps: seq<FlowJump>, path: seq<nat>): nat
  {
    if path == [] then 0 else JumpLength(blocks, jumps, path[0]) + PathLength(blocks, jumps, path[1..])
  }

  /// Block `v` ends a search for `target`: it is the target, or any exit
  /// when the target is ANY_EXIT.
  predicate IsGoal(jumps: seq<FlowJump>, target: int, v: nat)
  {
    v == target || (target == ANY_EXIT && IsExit(jumps, v))
  }

  /// No path from `source` to a goal of the search is shorter than `d`.
  ghost predicate NoShorterGoalPath(blocks: seq<FlowBlock>, jumps: seq<FlowJump>, source: nat, target: int, d: int)
  {
    forall y, p :: IsGoal(jumps, target, y) && IsPath(jumps, source, y, p) ==> d <= PathLength(blocks, jumps, p)
  }

  /// Block `v` is settled: it has a distance and has left the queue.
  predicate Settled(dist: seq<nat>, queue: set<nat>, v: nat)
    requires v < |dist|
  {
    dist[v] < MinCostFlowSolver.INF && v !in queue
  }

  /// The invariant of the Dijkstra loop. Every jump leaving a settled block
  /// other than `except` is relaxed; a parent jump is never longer than the
  /// difference of the distances it links; a block with a distance other
  /// than the source has a parent; a goal with a distance is queued.
  ghost predicate SearchInv(blocks: seq<FlowBlock>, jumps: seq<FlowJump>, source: nat, target: int,
                            dist: seq<nat>, parent: seq<int>, queue: set<nat>, except: int)
  {
    && SearchShape(blocks, jumps, source, target, dist, parent, queue)
    && Relaxed(blocks, jumps, dist, queue, except)
    && ParentsShorter(blocks, jumps, dist, parent)
    && HaveParents(source, dist, parent)
    && GoalsQueued(jumps, target, dist, queue)
  }

  /// Every block with a distance, other than the source, has a parent.
  ghost predicate HaveParents(source: nat, dist: seq<nat>, parent: seq<int>)
  {
    forall v {:trigger parent[v]} :: 0 <= v < |dist| && v < |parent| && v != source && dist[v] < MinCostFlowSolver.INF ==> parent[v] != -1
  }

  /// Every goal with a distance is still queued.
  ghost predicate GoalsQueued(jumps: seq<FlowJump>, target: int, dist: seq<nat>, queue: set<nat>)
  {
    forall v :: 0 <= v < |dist| && IsGoal(jumps, target, v) && dist[v] < MinCostFlowSolver.INF ==> v in queue
  }

  /// The sizes and bounds the search keeps.
  ghost predicate SearchShape(blocks: seq<FlowBlock>, jumps: seq<FlowJump>, source: nat, target: int,
                              dist: seq<nat>, parent: seq<int>, queue: set<nat>)
  {
    && GraphOk(blocks, jumps, source) && !IsGoal(jumps, target, source)
    && |dist| == |blocks| && |parent| == |blocks| && ParentsOk(jumps, parent)
    && dist[source] == 0
    && (forall v :: 0 <= v < |dist| ==> dist[v] <= MinCostFlowSolver.INF)
    && (forall v :: v in queue ==> v < |blocks| && dist[v] < MinCostFlowSolver.INF)
  }

  /// Every jump leaving a settled block other than `except` is relaxed.
  ghost predicate Relaxed(blocks: seq<FlowBlock>, jumps: seq<FlowJump>, dist: seq<nat>, queue: set<nat>, except: int)
  {
    forall j :: (0 <= j < |jumps| && jumps[j].source != except && jumps[j].source < |dist| && jumps[j].target < |dist| &&
                 Settled(dist, queue, jumps[j].source)) ==>
      dist[jumps[j].target] <= dist[jumps[j].source] + JumpLength(blocks, jumps, j)
  }

  /// A parent jump is never longer than the difference of the distances it links.
  ghost predicate ParentsShorter(blocks: seq<FlowBlock>, jumps: seq<FlowJump>, dist: seq<nat>, parent: seq<int>)
  {
    forall v {:trigger parent[v]} :: 0 <= v < |parent| && v < |dist| && parent[v] != -1 && 0 <= parent[v] < |jumps| && jumps[parent[v]].source < |dist| ==>
      dist[v] < MinCostFlowSolver.INF && dist[jumps[parent[v]].source] + JumpLength(blocks, jumps, parent[v]) <= dist[v]
  }

  /// findShortestPath(Source, Target): a path of jumps from `source` to
  /// `target`, or to some exit block when `target` is ANY_EXIT, no longer
  /// than any other such path. `None` where the source asserts that a path
  /// exists: the search reached no goal, and then every path to a goal is
  /// at least INF long.
  method FindShortestPath(blocks: seq<FlowBlock>, jumps: seq<FlowJump>, source: nat, target: int)
    returns (path: Option<seq<nat>>)
    requires GraphOk(blocks, jumps, source) && (target == ANY_EXIT || 0 <= target < |blocks|)
    ensures source == target ==> path == Some([])
    ensures target == ANY_EXIT && IsExit(jumps, source) ==> path == Some([])
    ensures path.Some? && target != ANY_EXIT ==> IsPath(jumps, source, target, path.value)
    ensures path.Some? && target == ANY_EXIT ==>
      exists x :: 0 <= x < |blocks| && IsExit(jumps, x) && IsPath(jumps, source, x, path.value)
    ensures path.Some? ==> NoShorterGoalPath(blocks, jumps, source, target, PathLength(blocks, jumps, path.value))
    ensures path.None? ==> NoShorterGoalPath(blocks, jumps, source, target, MinCostFlowSolver.INF)
  {
    if source == target {
      return Some([]);
    }
    if target == ANY_EXIT && IsExit(jumps, source) {
      return Some([]);
    }
    var dist, parent, found, rank := Search(blocks, jumps, source, target);
    var t := target;
    if target == ANY_EXIT {
      t := ClosestExit(jumps, dist, parent);
    }
    if t == ANY_EXIT || parent[t] == -1 {
      assert found == -1;
      return None;
    }
    assert found != -1 && dist[t] <= dist[found];
    var p := ParentChain(blocks, jumps, dist, parent, source, t, rank);
    path := Some(p);
    if target == ANY_EXIT {
      assert IsExit(jumps, t) && IsPath(jumps, source, t, p);
    }
  }

  /// The Dijkstra loop: settles blocks in order of distance from `source`
  /// and stops once it takes the target (or any exit) off the queue.
  /// `found` is that goal, whose distance no path to a goal undercuts, or
  /// -1 when the queue ran empty, and then no goal has a parent and every
  /// path to a goal is at least INF long. `rank` orders the blocks so that
  /// every parent link leads to a lower rank: the links form no cycle.
  method Search(blocks: seq<FlowBlock>, jumps: seq<FlowJump>, source: nat, target: int)
    returns (dist: seq<nat>, parent: seq<int>, ghost found: int, ghost rank: seq<nat>)
    requires GraphOk(blocks, jumps, source) && !IsGoal(jumps, target, source)
    ensures |dist| == |blocks| && |parent| == |blocks| && ParentsOk(jumps, parent) && dist[source] == 0
    ensures forall v :: 0 <= v < |parent| && parent[v] != -1 ==>
      dist[jumps[parent[v]].source] + JumpLength(blocks, jumps, parent[v]) <= dist[v]
    ensures ChainRanked(jumps, source, parent, rank)
    ensures found == -1 ==> forall v :: 0 <= v < |blocks| && IsGoal(jumps, target, v) ==> parent[v] == -1
    ensures found == -1 ==> NoShorterGoalPath(blocks, jumps, source, target, MinCostFlowSolver.INF)
    ensures found != -1 ==> SearchDone(blocks, jumps, source, target, dist, parent, found)
  {
    var n := |blocks|;
    dist := seq(n, _ => MinCostFlowSolver.INF as nat)[source := 0];
    parent := seq(n, _ => -1);
    var queue: set<nat> := {source};
    rank := seq(n, _ => 0);
    ghost var c: nat, level: nat := 0, 0;
    SearchStart(blocks, jumps, source, target);
    found := -1;
    var stop := false;
    while queue != {} && !stop
      invariant !stop ==> SearchInv(blocks, jumps, source, target, dist, parent, queue, -1) && found == -1
      invariant !stop ==> Ranked(jumps, source, dist, parent, queue, rank, c) && Mono(dist, queue, level)
      invariant stop ==> SearchDone(blocks, jumps, source, target, dist, parent, found)
      invariant stop ==> ChainRanked(jumps, source, parent, rank)
      decreases !stop, SumDist(dist), |queue|
    {
      dist, parent, queue, stop, found, rank, c, level :=
        SearchRound(blocks, jumps, source, target, dist, parent, queue, rank, c, level);
    }
    if !stop {
      SearchFacts(blocks, jumps, source, target, dist, parent, queue);
      EmptyQueueNoGoalPath(blocks, jumps, source, target, dist, parent);
      RankFinal(jumps, source, dist, parent, queue, rank, c);
      rank := FinalRanks(dist, queue, rank, c);
    }
  }

  /// What Search promises once it has taken a goal off the queue.
  ghost predicate SearchDone(blocks: seq<FlowBlock>, jumps: seq<FlowJump>, source: nat, target: int,
                             dist: seq<nat>, parent: seq<int>, found: int)
  {
    && |dist| == |blocks| && |parent| == |blocks| && ParentsOk(jumps, parent) && source < |blocks| && dist[source] == 0
    && (forall j :: 0 <= j < |jumps| ==> jumps[j].source < |blocks|)
    && (forall v :: 0 <= v < |parent| && parent[v] != -1 ==>
          dist[jumps[parent[v]].source] + JumpLength(blocks, jumps, parent[v]) <= dist[v])
    && 0 <= found < |blocks| && IsGoal(jumps, target, found) && parent[found] != -1
    && NoShorterGoalPath(blocks, jumps, source, target, dist[found])
  }

  /// One round of the Dijkstra loop: takes the first block off the queue;
  /// stops if it is a goal, and otherwise relaxes the jumps leaving it. The
  /// block taken off gets the next rank.
  method SearchRound(blocks: seq<FlowBlock>, jumps: seq<FlowJump>, source: nat, target: int,
                     dist0: seq<nat>, parent0: seq<int>, queue0: set<nat>, ghost rank0: seq<nat>, ghost c0: nat, ghost level0: nat)
    returns (dist: seq<nat>, parent: seq<int>, queue: set<nat>, stop: bool, ghost found: int,
             ghost rank: seq<nat>, ghost c: nat, ghost level: nat)
    requires SearchInv(blocks, jumps, source, target, dist0, parent0, queue0, -1) && queue0 != {}
    requires Ranked(jumps, source, dist0, parent0, queue0, rank0, c0) && Mono(dist0, queue0, level0)
    ensures stop ==> SearchDone(blocks, jumps, source, target, dist, parent, found)
    ensures stop ==> ChainRanked(jumps, source, parent, rank)
    ensures !stop ==> SearchInv(blocks, jumps, source, target, dist, parent, queue, -1) && found == -1
    ensures !stop ==> Ranked(jumps, source, dist, parent, queue, rank, c) && Mono(dist, queue, level)
    ensures !stop ==> SumDist(dist) < SumDist(dist0) || (dist == dist0 && |queue| < |queue0|)
  {
    dist, parent, found := dist0, parent0, -1;
    var u := First(queue0, dist);
    queue := queue0 - {u};
    PopKeepsRanked(jumps, source, dist, parent, queue0, rank0, c0, level0, u);
    rank, c, level := rank0[u := c0], c0 + 1, dist[u];
    stop := u == target || (target == ANY_EXIT && IsExit(jumps, u));
    if stop {
      GoalReached(blocks, jumps, source, target, dist, parent, queue0, u, rank, c);
      found := u;
      rank := FinalRanks(dist, queue, rank, c);
    } else {
      assert queue + {u} == queue0;
      dist, parent, queue := Relax(blocks, jumps, source, target, u, dist, parent, queue, rank, c);
    }
  }

  /// A goal taken off the queue ends the search: its distance is the
  /// shortest to any goal, and the final ranks order every parent link.
  lemma {:induction false} GoalReached(blocks: seq<FlowBlock>, jumps: seq<FlowJump>, source: nat, target: int,
                                       dist: seq<nat>, parent: seq<int>, queue0: set<nat>, u: nat, rank: seq<nat>, c: nat)
    requires SearchInv(blocks, jumps, source, target, dist, parent, queue0, -1)
    requires u in queue0 && (forall w :: w in queue0 ==> Before(dist, u, w)) && IsGoal(jumps, target, u)
    requires Ranked(jumps, source, dist, parent, queue0 - {u}, rank, c)
    ensures SearchDone(blocks, jumps, source, target, dist, parent, u)
    ensures ChainRanked(jumps, source, parent, FinalRanks(dist, queue0 - {u}, rank, c))
  {
    PopIsShortest(blocks, jumps, source, target, dist, parent, queue0, u);
    SearchFacts(blocks, jumps, source, target, dist, parent, queue0);
    RankFinal(jumps, source, dist, parent, queue0 - {u}, rank, c);
  }

  /// No settled block is farther than `level`, the distance of the block
  /// last taken off the queue, and no queued block is nearer: a settled
  /// block never gets a shorter distance again.
  ghost predicate Mono(dist: seq<nat>, queue: set<nat>, level: nat)
  {
    && (forall v :: 0 <= v < |dist| && Settled(dist, queue, v) ==> dist[v] <= level)
    && (forall v :: v in queue ==> v < |dist| && level <= dist[v])
  }

  /// Blocks are ranked in the order they are settled, `c` being the next
  /// rank: the jump a block has as its parent leaves a settled block, which
  /// was ranked first if the block is settled too.
  ghost predicate Ranked(jumps: seq<FlowJump>, source: nat, dist: seq<nat>, parent: seq<int>, queue: set<nat>,
                         rank: seq<nat>, c: nat)
  {
    && |rank| == |dist| && |parent| == |dist|
    && (forall v :: 0 <= v < |dist| && Settled(dist, queue, v) ==> rank[v] < c)
    && (forall v {:trigger parent[v]} ::
          (0 <= v < |parent| && v != source && 0 <= parent[v] < |jumps| && jumps[parent[v]].source < |dist|) ==>
          Settled(dist, queue, jumps[parent[v]].source) &&
          (Settled(dist, queue, v) ==> rank[jumps[parent[v]].source] < rank[v]))
  }

  /// Every parent link leads to a block of lower rank that is the source or
  /// has a parent itself: following the links from any block with a parent
  /// ends at the source.
  ghost predicate ChainRanked(jumps: seq<FlowJump>, source: nat, parent: seq<int>, rank: seq<nat>)
  {
    && |rank| == |parent|
    && forall v {:trigger parent[v]} :: 0 <= v < |parent| && v != source && 0 <= parent[v] < |jumps| ==>
         jumps[parent[v]].source < |parent| && rank[jumps[parent[v]].source] < rank[v] &&
         (jumps[parent[v]].source == source || parent[jumps[parent[v]].source] != -1)
  }

  /// The ranks once the search is over: blocks never settled come last.
  ghost function FinalRanks(dist: seq<nat>, queue: set<nat>, rank: seq<nat>, c: nat): seq<nat>
    requires |rank| == |dist|
  {
    seq(|dist|, v requires 0 <= v < |dist| => if Settled(dist, queue, v) then rank[v] else c)
  }

  /// Taking the first block off the queue settles it with the next rank,
  /// and its distance becomes the level.
  lemma {:induction false} PopKeepsRanked(jumps: seq<FlowJump>, source: nat, dist: seq<nat>, parent: seq<int>, queue: set<nat>,
                                          rank: seq<nat>, c: nat, level: nat, u: nat)
    requires Ranked(jumps, source, dist, parent, queue, rank, c) && Mono(dist, queue, level)
    requires u in queue && forall w :: w in queue ==> w < |dist| && dist[w] < MinCostFlowSolver.INF && Before(dist, u, w)
    ensures Ranked(jumps, source, dist, parent, queue - {u}, rank[u := c], c + 1) && Mono(dist, queue - {u}, dist[u])
  {
    var queue', rank' := queue - {u}, rank[u := c];
    forall v | 0 <= v < |dist| && Settled(dist, queue', v) ensures rank'[v] < c + 1 && dist[v] <= dist[u] {
      if v != u {
        assert Settled(dist, queue, v);
      }
    }
    forall v | 0 <= v < |parent| && v != source && 0 <= parent[v] < |jumps| && jumps[parent[v]].source < |dist|
      ensures Settled(dist, queue', jumps[parent[v]].source) &&
              (Settled(dist, queue', v) ==> rank'[jumps[parent[v]].source] < rank'[v])
    {
      assert Settled(dist, queue, jumps[parent[v]].source);
    }
  }

  /// Once the search is over, the final ranks order every parent link.
  lemma {:induction false} RankFinal(jumps: seq<FlowJump>, source: nat, dist: seq<nat>, parent: seq<int>, queue: set<nat>,
                                     rank: seq<nat>, c: nat)
    requires Ranked(jumps, source, dist, parent, queue, rank, c) && ParentsOk(jumps, parent)
    requires HaveParents(source, dist, parent)
    requires forall j :: 0 <= j < |jumps| ==> jumps[j].source < |dist|
    ensures ChainRanked(jumps, source, parent, FinalRanks(dist, queue, rank, c))
  {
    var r := FinalRanks(dist, queue, rank, c);
    forall v | 0 <= v < |parent| && v != source && 0 <= parent[v] < |jumps|
      ensures jumps[parent[v]].source < |parent| && r[jumps[parent[v]].source] < r[v] &&
              (jumps[parent[v]].source == source || parent[jumps[parent[v]].source] != -1)
    {
      var p := jumps[parent[v]].source;
      assert Settled(dist, queue, p);
      assert r[p] == rank[p];
    }
  }

  /// With the queue empty, every block with a distance is settled and every
  /// jump leaving it relaxed; no goal has a distance, so a path to a goal
  /// is at least INF long.
  lemma {:induction false} EmptyQueueNoGoalPath(blocks: seq<FlowBlock>, jumps: seq<FlowJump>, source: nat, target: int,
                                                dist: seq<nat>, parent: seq<int>)
    requires SearchInv(blocks, jumps, source, target, dist, parent, {}, -1)
    ensures NoShorterGoalPath(blocks, jumps, source, target, MinCostFlowSolver.INF)
  {
    forall y, p | IsGoal(jumps, target, y) && IsPath(jumps, source, y, p)
      ensures MinCostFlowSolver.INF <= PathLength(blocks, jumps, p)
    {
      if p != [] {
        assert y == jumps[p[|p| - 1]].target;
      }
      assert !Settled(dist, {}, y);
      ReachUnsettled(blocks, jumps, source, target, dist, parent, {}, source, y, p, 0);
      var z :| 0 <= z < |blocks| && !Settled(dist, {}, z) && dist[z] <= PathLength(blocks, jumps, p);
    }
  }

  /// The invariant of Search holds before its loop.
  lemma {:induction false} SearchStart(blocks: seq<FlowBlock>, jumps: seq<FlowJump>, source: nat, target: int)
    requires GraphOk(blocks, jumps, source) && !IsGoal(jumps, target, source)
    ensures SearchInv(blocks, jumps, source, target, seq(|blocks|, _ => MinCostFlowSolver.INF as nat)[source := 0],
                      seq(|blocks|, _ => -1), {source}, -1)
    ensures Ranked(jumps, source, seq(|blocks|, _ => MinCostFlowSolver.INF as nat)[source := 0],
                   seq(|blocks|, _ => -1), {source}, seq(|blocks|, _ => 0), 0)
    ensures Mono(seq(|blocks|, _ => MinCostFlowSolver.INF as nat)[source := 0], {source}, 0)
  {
  }

  /// What the invariant of Search gives its caller; with an empty queue, no
  /// goal has been reached.
  lemma {:induction false} SearchFacts(blocks: seq<FlowBlock>, jumps: seq<FlowJump>, source: nat, target: int,
                                       dist: seq<nat>, parent: seq<int>, queue: set<nat>)
    requires SearchInv(blocks, jumps, source, target, dist, parent, queue, -1)
    ensures |dist| == |blocks| && |parent| == |blocks| && ParentsOk(jumps, parent) && dist[source] == 0
    ensures forall v :: 0 <= v < |parent| && parent[v] != -1 ==>
      dist[jumps[parent[v]].source] + JumpLength(blocks, jumps, parent[v]) <= dist[v]
    ensures queue == {} ==> forall v :: 0 <= v < |blocks| && IsGoal(jumps, target, v) ==> parent[v] == -1
  {
  }

  /// The block taken off the queue is no farther than any path from the
  /// source to a goal.
  lemma {:induction false} PopIsShortest(blocks: seq<FlowBlock>, jumps: seq<FlowJump>, source: nat, target: int,
                                         dist: seq<nat>, parent: seq<int>, queue: set<nat>, u: nat)
    requires SearchInv(blocks, jumps, source, target, dist, parent, queue, -1)
    requires u in queue && forall w :: w in queue ==> Before(dist, u, w)
    ensures NoShorterGoalPath(blocks, jumps, source, target, dist[u])
    ensures IsGoal(jumps, target, u) ==> parent[u] != -1
  {
    forall y, p | IsGoal(jumps, target, y) && IsPath(jumps, source, y, p)
      ensures dist[u] <= PathLength(blocks, jumps, p)
    {
      if p != [] {
        assert y == jumps[p[|p| - 1]].target;
      }
      ReachUnsettled(blocks, jumps, source, target, dist, parent, queue, source, y, p, 0);
      var z :| 0 <= z < |blocks| && !Settled(dist, queue, z) && dist[z] <= PathLength(blocks, jumps, p);
      if z in queue {
        assert Before(dist, u, z);
      }
    }
  }

  /// A path from a block within distance `a` to a block that is not
  /// settled meets a block that is not settled within distance `a` plus the
  /// path's length.
  lemma {:induction false} ReachUnsettled(blocks: seq<FlowBlock>, jumps: seq<FlowJump>, source: nat, target: int,
                                          dist: seq<nat>, parent: seq<int>, queue: set<nat>,
                                          s: nat, y: nat, p: seq<nat>, a: int)
    requires SearchInv(blocks, jumps, source, target, dist, parent, queue, -1)
    requires IsPath(jumps, s, y, p) && s < |blocks| && y < |blocks| && dist[s] <= a && !Settled(dist, queue, y)
    ensures exists z :: 0 <= z < |blocks| && !Settled(dist, queue, z) && dist[z] <= a + PathLength(blocks, jumps, p)
    decreases |p|
  {
    if !Settled(dist, queue, s) {
      assert dist[s] <= a + PathLength(blocks, jumps, p);
    } else {
      var j := p[0];
      var t := jumps[j].target;
      PathDropFirst(jumps, s, y, p);
      ReachUnsettled(blocks, jumps, source, target, dist, parent, queue, t, y, p[1..], a + JumpLength(blocks, jumps, j));
    }
  }

  /// A nonempty path without its first jump is a path from that jump's target.
  lemma {:induction false} PathDropFirst(jumps: seq<FlowJump>, s: nat, y: nat, p: seq<nat>)
    requires IsPath(jumps, s, y, p) && p != []
    ensures IsPath(jumps, jumps[p[0]].target, y, p[1..])
  {
    var q := p[1..];
    forall k | 0 <= k < |q| - 1 ensures jumps[q[k]].target == jumps[q[k + 1]].source {
      assert q[k] == p[k + 1] && q[k + 1] == p[k + 2];
    }
    if q != [] {
      assert jumps[p[0]].target == jumps[p[1]].source;
      assert q[|q| - 1] == p[|p| - 1];
    }
  }

  /// Relaxes every jump leaving `u`: a shorter way into its target lowers the
  /// target's distance, makes the jump its parent and (re)queues it.
  method Relax(blocks: seq<FlowBlock>, jumps: seq<FlowJump>, source: nat, target: int, u: nat,
               dist0: seq<nat>, parent0: seq<int>, queue0: set<nat>, ghost rank: seq<nat>, ghost c: nat)
    returns (dist: seq<nat>, parent: seq<int>, queue: set<nat>)
    requires SearchInv(blocks, jumps, source, target, dist0, parent0, queue0 + {u}, -1)
    requires u < |blocks| && u !in queue0 && !IsGoal(jumps, target, u)
    requires Ranked(jumps, source, dist0, parent0, queue0, rank, c) && Mono(dist0, queue0, dist0[u])
    ensures SearchInv(blocks, jumps, source, target, dist, parent, queue, -1)
    ensures Ranked(jumps, source, dist, parent, queue, rank, c) && Mono(dist, queue, dist0[u])
    ensures SumDist(dist) < SumDist(dist0) || (dist == dist0 && queue == queue0)
  {
    RelaxStart(blocks, jumps, source, target, u, dist0, parent0, queue0);
    dist, parent, queue := dist0, parent0, queue0;
    var succ := SuccJumps(jumps, u);
    var i := 0;
    while i < |succ|
      invariant 0 <= i <= |succ|
      invariant SearchInv(blocks, jumps, source, target, dist, parent, queue, u)
      invariant RelaxInv(blocks, jumps, u, dist0[u], succ, i, dist, queue)
      invariant SumDist(dist) < SumDist(dist0) || (dist == dist0 && queue == queue0)
      invariant Ranked(jumps, source, dist, parent, queue, rank, c) && Mono(dist, queue, dist0[u])
    {
      var jmp := jumps[succ[i]];
      var dst := jmp.target;
      var d := dist[u] + JumpDistance(blocks, jmp);
      if dist[dst] > d {
        SumDistUpdate(dist, dst, d);
        LowerKeepsSearchInv(blocks, jumps, source, target, u, dist, parent, queue, succ[i], d);
        RelaxStep(blocks, jumps, u, dist0[u], succ, i, dist, queue, d);
        LowerKeepsRanked(jumps, source, dist, parent, queue, rank, c, u, succ[i], d);
        dist := dist[dst := d];
        parent := parent[dst := succ[i]];
        queue := queue - {dst} + {dst};
      }
      i := i + 1;
    }
    RelaxDone(blocks, jumps, source, target, u, dist0[u], succ, dist, parent, queue);
  }

  /// The invariant of the loop of Relax after `i` of the jumps leaving `u`.
  ghost predicate RelaxInv(blocks: seq<FlowBlock>, jumps: seq<FlowJump>, u: nat, du: nat,
                           succ: seq<nat>, i: nat, dist: seq<nat>, queue: set<nat>)
  {
    && u < |dist| && u !in queue && dist[u] == du && du < MinCostFlowSolver.INF && i <= |succ|
    && (forall k :: 0 <= k < |succ| ==> succ[k] < |jumps| && jumps[succ[k]].source == u && jumps[succ[k]].target < |dist|)
    && (forall j :: 0 <= j < |jumps| && jumps[j].source == u ==> j in succ)
    && (forall k :: 0 <= k < i ==> dist[jumps[succ[k]].target] <= du + JumpLength(blocks, jumps, succ[k]))
  }

  /// Taking `u` off the queue keeps the invariant, apart from the jumps
  /// leaving `u`.
  lemma {:induction false} RelaxStart(blocks: seq<FlowBlock>, jumps: seq<FlowJump>, source: nat, target: int, u: nat,
                                      dist: seq<nat>, parent: seq<int>, queue: set<nat>)
    requires SearchInv(blocks, jumps, source, target, dist, parent, queue + {u}, -1)
    requires u < |blocks| && u !in queue && !IsGoal(jumps, target, u)
    ensures SearchInv(blocks, jumps, source, target, dist, parent, queue, u)
    ensures RelaxInv(blocks, jumps, u, dist[u], SuccJumps(jumps, u), 0, dist, queue)
  {
    SuccJumpsSpec(jumps, u);
    forall j | 0 <= j < |jumps| && jumps[j].source != u && Settled(dist, queue, jumps[j].source)
      ensures dist[jumps[j].target] <= dist[jumps[j].source] + JumpLength(blocks, jumps, j)
    {
      assert Settled(dist, queue + {u}, jumps[j].source);
    }
  }

  /// Lowering the distance of the target of the next jump keeps the loop
  /// invariant of Relax.
  lemma {:induction false} RelaxStep(blocks: seq<FlowBlock>, jumps: seq<FlowJump>, u: nat, du: nat,
                                     succ: seq<nat>, i: nat, dist: seq<nat>, queue: set<nat>, d: nat)
    requires RelaxInv(blocks, jumps, u, du, succ, i, dist, queue) && i < |succ|
    requires jumps[succ[i]].target < |dist|
    requires d == du + JumpLength(blocks, jumps, succ[i]) && dist[jumps[succ[i]].target] > d
    ensures RelaxInv(blocks, jumps, u, du, succ, i + 1, dist[jumps[succ[i]].target := d],
                     queue - {jumps[succ[i]].target} + {jumps[succ[i]].target})
  {
    var dst := jumps[succ[i]].target;
    var dist' := dist[dst := d];
    assert dst != u;
    forall k | 0 <= k < i + 1 ensures dist'[jumps[succ[k]].target] <= du + JumpLength(blocks, jumps, succ[k]) {
    }
  }

  /// Lowering the distance of the target of jump `j`, which leaves `u`, to
  /// the distance through `u`, making `j` its parent and queueing it keeps
  /// the invariant of Search apart from the jumps leaving `u`.
  lemma {:induction false} LowerKeepsSearchInv(blocks: seq<FlowBlock>, jumps: seq<FlowJump>, source: nat, target: int, u: nat,
                                               dist: seq<nat>, parent: seq<int>, queue: set<nat>, j: nat, d: nat)
    requires SearchInv(blocks, jumps, source, target, dist, parent, queue, u)
    requires u < |blocks| && dist[u] < MinCostFlowSolver.INF && j < |jumps| && jumps[j].source == u
    requires d == dist[u] + JumpLength(blocks, jumps, j) && dist[jumps[j].target] > d
    ensures SearchInv(blocks, jumps, source, target, dist[jumps[j].target := d], parent[jumps[j].target := j],
                      queue - {jumps[j].target} + {jumps[j].target}, u)
  {
    var dst := jumps[j].target;
    var dist', parent', queue' := dist[dst := d], parent[dst := j], queue - {dst} + {dst};
    assert dst != source;
    LowerKeepsRelaxed(blocks, jumps, dist, queue, u, dst, d);
    LowerKeepsParentsShorter(blocks, jumps, dist, parent, j, d);
    assert SearchShape(blocks, jumps, source, target, dist', parent', queue');
    forall v | 0 <= v < |dist'| && v < |parent'| && v != source && dist'[v] < MinCostFlowSolver.INF ensures parent'[v] != -1 {
      if v != dst {
        assert dist'[v] == dist[v] && parent'[v] == parent[v];
      }
    }
    forall v | 0 <= v < |dist'| && IsGoal(jumps, target, v) && dist'[v] < MinCostFlowSolver.INF ensures v in queue' {
      if v != dst {
        assert dist'[v] == dist[v];
      }
    }
  }

  /// Lowering the distance of the target of jump `j`, which leaves the block
  /// `u` just settled, keeps the ranks: the target is not settled, since no
  /// settled block is farther than `u`.
  lemma {:induction false} LowerKeepsRanked(jumps: seq<FlowJump>, source: nat, dist: seq<nat>, parent: seq<int>, queue: set<nat>,
                                            rank: seq<nat>, c: nat, u: nat, j: nat, d: nat)
    requires u < |dist| && j < |jumps| && jumps[j].source == u && jumps[j].target < |dist|
    requires Ranked(jumps, source, dist, parent, queue, rank, c) && Mono(dist, queue, dist[u]) && Settled(dist, queue, u)
    requires dist[u] <= d < dist[jumps[j].target]
    ensures Ranked(jumps, source, dist[jumps[j].target := d], parent[jumps[j].target := j],
                   queue - {jumps[j].target} + {jumps[j].target}, rank, c)
    ensures Mono(dist[jumps[j].target := d], queue - {jumps[j].target} + {jumps[j].target}, dist[u])
  {
    var dst := jumps[j].target;
    var dist', parent', queue' := dist[dst := d], parent[dst := j], queue - {dst} + {dst};
    assert !Settled(dist, queue, dst);
    forall v | 0 <= v < |dist'| && Settled(dist', queue', v) ensures Settled(dist, queue, v) {
      assert v != dst && dist'[v] == dist[v];
    }
    forall v | 0 <= v < |parent'| && v != source && 0 <= parent'[v] < |jumps| && jumps[parent'[v]].source < |dist'|
      ensures Settled(dist', queue', jumps[parent'[v]].source) &&
              (Settled(dist', queue', v) ==> rank[jumps[parent'[v]].source] < rank[v])
    {
      var p := jumps[parent'[v]].source;
      if v != dst {
        assert parent'[v] == parent[v] && Settled(dist, queue, p) && p != dst;
      } else {
        assert p == u && u != dst;
      }
    }
  }

  /// Lowering the distance of `dst` and queueing it keeps the jumps leaving
  /// settled blocks relaxed.
  lemma {:induction false} LowerKeepsRelaxed(blocks: seq<FlowBlock>, jumps: seq<FlowJump>, dist: seq<nat>, queue: set<nat>,
                                             u: nat, dst: nat, d: nat)
    requires Relaxed(blocks, jumps, dist, queue, u) && dst < |dist| && d < dist[dst]
    ensures Relaxed(blocks, jumps, dist[dst := d], queue - {dst} + {dst}, u)
  {
    var dist', queue' := dist[dst := d], queue - {dst} + {dst};
    forall i | 0 <= i < |jumps| && jumps[i].source != u && jumps[i].source < |dist'| && jumps[i].target < |dist'| &&
               Settled(dist', queue', jumps[i].source)
      ensures dist'[jumps[i].target] <= dist'[jumps[i].source] + JumpLength(blocks, jumps, i)
    {
      assert Settled(dist, queue, jumps[i].source);
    }
  }

  /// Making jump `j` the parent of its target at the distance through it
  /// keeps every parent jump no longer than the distances it links.
  lemma {:induction false} LowerKeepsParentsShorter(blocks: seq<FlowBlock>, jumps: seq<FlowJump>, dist: seq<nat>, parent: seq<int>,
                                                    j: nat, d: nat)
    requires ParentsShorter(blocks, jumps, dist, parent) && |parent| == |dist|
    requires forall v :: 0 <= v < |dist| ==> dist[v] <= MinCostFlowSolver.INF
    requires j < |jumps| && jumps[j].source < |dist| && jumps[j].target < |dist|
    requires d == dist[jumps[j].source] + JumpLength(blocks, jumps, j) && d < dist[jumps[j].target]
    ensures ParentsShorter(blocks, jumps, dist[jumps[j].target := d], parent[jumps[j].target := j])
  {
    var dst := jumps[j].target;
    var dist', parent' := dist[dst := d], parent[dst := j];
    forall v | 0 <= v < |parent'| && v < |dist'| && parent'[v] != -1 && 0 <= parent'[v] < |jumps| && jumps[parent'[v]].source < |dist'|
      ensures dist'[v] < MinCostFlowSolver.INF && dist'[jumps[parent'[v]].source] + JumpLength(blocks, jumps, parent'[v]) <= dist'[v]
    {
      if v != dst {
        assert parent'[v] == parent[v];
      }
    }
  }

  /// After every jump leaving `u` is relaxed, the loop invariant of Search
  /// holds again.
  lemma {:induction false} RelaxDone(blocks: seq<FlowBlock>, jumps: seq<FlowJump>, source: nat, target: int, u: nat, du: nat,
                                     succ: seq<nat>, dist: seq<nat>, parent: seq<int>, queue: set<nat>)
    requires SearchInv(blocks, jumps, source, target, dist, parent, queue, u)
    requires RelaxInv(blocks, jumps, u, du, succ, |succ|, dist, queue)
    ensures SearchInv(blocks, jumps, source, target, dist, parent, queue, -1)
  {
    forall j | 0 <= j < |jumps| && Settled(dist, queue, jumps[j].source)
      ensures dist[jumps[j].target] <= dist[jumps[j].source] + JumpLength(blocks, jumps, j)
    {
      if jumps[j].source == u {
        var k :| 0 <= k < |succ| && succ[k] == j;
      }
    }
  }

  /// When the target is any exit: the exit with a parent and the least
  /// distance (the first such in index order), or ANY_EXIT if none has one.
  method ClosestExit(jumps: seq<FlowJump>, dist: seq<nat>, parent: seq<int>) returns (t: int)
    requires |dist| == |parent|
    ensures t == ANY_EXIT || (0 <= t < |parent| && IsExit(jumps, t) && parent[t] != -1)
    ensures t == ANY_EXIT <==> forall v :: 0 <= v < |parent| ==> !IsExit(jumps, v) || parent[v] == -1
    ensures t != ANY_EXIT ==> forall v :: 0 <= v < |parent| && IsExit(jumps, v) && parent[v] != -1 ==> dist[t] <= dist[v]
  {
    t := ANY_EXIT;
    var i := 0;
    while i < |parent|
      invariant 0 <= i <= |parent|
      invariant t == ANY_EXIT || (0 <= t < i && IsExit(jumps, t) && parent[t] != -1)
      invariant t == ANY_EXIT <==> forall v :: 0 <= v < i ==> !IsExit(jumps, v) || parent[v] == -1
      invariant t != ANY_EXIT ==> forall v :: 0 <= v < i && IsExit(jumps, v) && parent[v] != -1 ==> dist[t] <= dist[v]
    {
      if IsExit(jumps, i) && parent[i] != -1 {
        if t == ANY_EXIT || dist[t] > dist[i] {
          t := i;
        }
      }
      i := i + 1;
    }
  }

  /// Follows parent links from `t` back to `source`; the jumps met, in
  /// reverse, form a path no longer than the distance of `t` beyond the
  /// source's. The ranks show that the walk ends.
  method ParentChain(blocks: seq<FlowBlock>, jumps: seq<FlowJump>, dist: seq<nat>, parent: seq<int>, source: nat, t: nat,
                     ghost rank: seq<nat>)
    returns (path: seq<nat>)
    requires GraphOk(blocks, jumps, source) && t < |blocks| && |dist| == |blocks| && |parent| == |blocks|
    requires ParentsOk(jumps, parent) && ChainRanked(jumps, source, parent, rank)
    requires forall v :: 0 <= v < |parent| && parent[v] != -1 ==>
      dist[jumps[parent[v]].source] + JumpLength(blocks, jumps, parent[v]) <= dist[v]
    requires t == source || parent[t] != -1
    ensures IsPath(jumps, source, t, path)
    ensures dist[source] + PathLength(blocks, jumps, path) <= dist[t]
  {
    var now: nat := t;
    path := [];
    while now != source
      invariant now < |parent| && IsPath(jumps, now, t, path)
      invariant dist[now] + PathLength(blocks, jumps, path) <= dist[t]
      invariant now == source || parent[now] != -1
      decreases rank[now]
    {
      var j: nat := parent[now];
      PathCons(jumps, j, t, path);
      assert ([j] + path)[1..] == path;
      path := [j] + path;
      now := jumps[j].source;
    }
  }

  /// findShortestPath(BlockIdx): the path from the entry to `b` followed by
  /// the path from `b` to an exit.
  method FindShortestPathThrough(blocks: seq<FlowBlock>, jumps: seq<FlowJump>, entry: nat, b: nat)
    returns (path: Option<seq<nat>>)
    requires GraphOk(blocks, jumps, entry) && b < |blocks|
    ensures path.Some? ==> exists x :: 0 <= x < |blocks| && IsExit(jumps, x) && IsPath(jumps, entry, x, path.value)
    ensures path.Some? && b != entry ==> exists k :: 0 <= k < |path.value| && jumps[path.value[k]].target == b
    ensures path.Some? ==>
      exists m :: (0 <= m <= |path.value| && IsPath(jumps, entry, b, path.value[..m]) &&
                   NoShorterGoalPath(blocks, jumps, entry, b, PathLength(blocks, jumps, path.value[..m])) &&
                   NoShorterGoalPath(blocks, jumps, b, ANY_EXIT, PathLength(blocks, jumps, path.value[m..])))
    ensures path.None? ==>
      NoShorterGoalPath(blocks, jumps, entry, b, MinCostFlowSolver.INF) ||
      NoShorterGoalPath(blocks, jumps, b, ANY_EXIT, MinCostFlowSolver.INF)
  {
    var forward := FindShortestPath(blocks, jumps, entry, b);
    var backward := FindShortestPath(blocks, jumps, b, ANY_EXIT);
    if forward.None? || backward.None? {
      return None;
    }
    var p, q := forward.value, backward.value;
    ghost var x :| 0 <= x < |blocks| && IsExit(jumps, x) && IsPath(jumps, b, x, q);
    PathAppend(jumps, entry, b, x, p, q);
    path := Some(p + q);
    assert (p + q)[..|p|] == p && (p + q)[|p|..] == q;
    if b != entry {
      assert (p + q)[|p| - 1] == p[|p| - 1];
    }
  }
}
