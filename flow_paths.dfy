// Paths of jumps and the breadth-first search along positive-flow jumps
// (FlowAdjuster::findReachable).
module FlowPaths {
  import opened FlowGraph

  /// `path` lists jump indices leading from block `src` to block `dst`.
  ghost predicate IsPath(jumps: seq<FlowJump>, src: nat, dst: nat, path: seq<nat>)
  {
    (forall k :: 0 <= k < |path| ==> path[k] < |jumps|) &&
    (if path == [] then src == dst
     else jumps[path[0]].source == src && jumps[path[|path| - 1]].target == dst &&
          forall k :: 0 <= k < |path| - 1 ==> jumps[path[k]].target == jumps[path[k + 1]].source)
  }

  /// Every jump of `path` carries positive flow.
  ghost predicate AllPositive(jumps: seq<FlowJump>, path: seq<nat>)
  {
    forall k :: 0 <= k < |path| && path[k] < |jumps| ==> jumps[path[k]].flow > 0
  }

  /// Block `v` can be reached from `src` along jumps with positive flow.
  ghost predicate Reaches(jumps: seq<FlowJump>, src: nat, v: nat)
  {
    exists path :: IsPath(jumps, src, v, path) && AllPositive(jumps, path)
  }

  lemma {:induction false} PathSnoc(jumps: seq<FlowJump>, src: nat, u: nat, path: seq<nat>, j: nat)
    requires IsPath(jumps, src, u, path) && j < |jumps| && jumps[j].source == u
    ensures IsPath(jumps, src, jumps[j].target, path + [j])
  {
  }

  lemma {:induction false} PathCons(jumps: seq<FlowJump>, j: nat, dst: nat, path: seq<nat>)
    requires j < |jumps| && IsPath(jumps, jumps[j].target, dst, path)
    ensures IsPath(jumps, jumps[j].source, dst, [j] + path)
  {
  }

  /// Two paths that meet at `mid` make one path.
  lemma {:induction false} PathAppend(jumps: seq<FlowJump>, src: nat, mid: nat, dst: nat, p: seq<nat>, q: seq<nat>)
    requires IsPath(jumps, src, mid, p) && IsPath(jumps, mid, dst, q)
    ensures IsPath(jumps, src, dst, p + q)
  {
    if p != [] && q != [] {
      var r := p + q;
      forall k | 0 <= k < |r| - 1 ensures jumps[r[k]].target == jumps[r[k + 1]].source {
        if k < |p| - 1 {
          assert r[k] == p[k] && r[k + 1] == p[k + 1];
        } else if k == |p| - 1 {
          assert r[k] == p[|p| - 1] && r[k + 1] == q[0];
        } else {
          assert r[k] == q[k - |p|] && r[k + 1] == q[k - |p| + 1];
        }
      }
    } else if p == [] {
      assert p + q == q;
    } else {
      assert p + q == p;
    }
  }

  /// A path stays a path when flows change, and stays positive when no flow decreases.
  lemma {:induction false} PathFlowsIncrease(a: seq<FlowJump>, b: seq<FlowJump>, src: nat, dst: nat, path: seq<nat>)
    requires SameEnds(a, b) && (forall j :: 0 <= j < |a| ==> a[j].flow <= b[j].flow)
    requires IsPath(a, src, dst, path) && AllPositive(a, path)
    ensures IsPath(b, src, dst, path) && AllPositive(b, path)
  {
  }

  /// No jump with positive flow leaves the marked blocks for an unmarked one.
  ghost predicate Closed(jumps: seq<FlowJump>, visited: seq<bool>)
  {
    forall j :: 0 <= j < |jumps| && jumps[j].flow > 0 && jumps[j].source < |visited| && visited[jumps[j].source] ==>
      jumps[j].target < |visited| && visited[jumps[j].target]
  }

  /// A closed set of blocks that holds `src` holds every block `src` reaches.
  lemma {:induction false} ClosedHoldsReached(jumps: seq<FlowJump>, visited: seq<bool>, src: nat, v: nat, path: seq<nat>)
    requires Closed(jumps, visited) && src < |visited| && visited[src]
    requires IsPath(jumps, src, v, path) && AllPositive(jumps, path)
    ensures v < |visited| && visited[v]
    decreases |path|
  {
    if path != [] {
      var init := path[..|path| - 1];
      var last := path[|path| - 1];
      var u := jumps[last].source;
      assert IsPath(jumps, src, u, init) by {
        if init != [] {
          assert jumps[init[|init| - 1]].target == jumps[path[|path| - 1]].source;
        }
      }
      ClosedHoldsReached(jumps, visited, src, u, init);
    }
  }

  /// Every block marked during the search, other than `except` and those
  /// still queued, has all its positive-flow successors marked.
  ghost predicate Expanded(jumps: seq<FlowJump>, visited: seq<bool>, r: seq<bool>, queue: seq<nat>, except: int)
  {
    forall j :: 0 <= j < |jumps| && jumps[j].flow > 0 && jumps[j].source < |r| && jumps[j].source < |visited| &&
      r[jumps[j].source] && !visited[jumps[j].source] && jumps[j].source !in queue && jumps[j].source != except
      ==> jumps[j].target < |r| && r[jumps[j].target]
  }

  /// Number of unmarked blocks.
  function CountFalse(visited: seq<bool>): (r: nat)
    ensures r <= |visited|
  {
    if visited == [] then 0
    else CountFalse(visited[..|visited| - 1]) + (if visited[|visited| - 1] then 0 else 1)
  }

  /// Marking an unmarked block lowers the count by one.
  lemma {:induction false} CountFalseMark(visited: seq<bool>, v: nat)
    requires v < |visited| && !visited[v]
    ensures CountFalse(visited[v := true]) == CountFalse(visited) - 1
    decreases |visited|
  {
    var last := |visited| - 1;
    var w := visited[v := true];
    if v < last {
      assert w[..last] == visited[..last][v := true];
      CountFalseMark(visited[..last], v);
    } else {
      assert w[..last] == visited[..last];
    }
  }

  /// What the search keeps true: marked blocks stay marked, queued blocks
  /// are newly marked ones, and every newly marked block has a recorded
  /// positive path from `src`.
  ghost predicate SearchInv(jumps: seq<FlowJump>, src: nat, visited: seq<bool>, r: seq<bool>,
                            queue: seq<nat>, paths: map<nat, seq<nat>>)
  {
    |r| == |visited| && src < |r| && r[src] &&
    (forall v :: 0 <= v < |visited| && visited[v] ==> r[v]) &&
    (forall k :: 0 <= k < |queue| ==> queue[k] < |r| && r[queue[k]] && !visited[queue[k]]) &&
    (forall v :: 0 <= v < |r| && r[v] && !visited[v] ==>
      v in paths && IsPath(jumps, src, v, paths[v]) && AllPositive(jumps, paths[v]))
  }

  /// findReachable: marks every block reachable from `src` along positive-flow
  /// jumps through unmarked blocks; nothing happens when `src` is marked already.
  method FindReachable(jumps: seq<FlowJump>, src: nat, visited: seq<bool>) returns (r: seq<bool>)
    requires src < |visited|
    requires forall j :: 0 <= j < |jumps| ==> jumps[j].source < |visited| && jumps[j].target < |visited|
    ensures |r| == |visited| && r[src]
    ensures forall v :: 0 <= v < |visited| && visited[v] ==> r[v]
    ensures visited[src] ==> r == visited
    ensures forall v :: 0 <= v < |visited| && r[v] && !visited[v] ==> Reaches(jumps, src, v)
    ensures forall j :: 0 <= j < |jumps| && jumps[j].flow > 0 && r[jumps[j].source] && !visited[jumps[j].source] ==>
      r[jumps[j].target]
  {
    r := visited;
    if r[src] {
      return;
    }
    var queue: seq<nat> := [src];
    CountFalseMark(r, src);
    r := r[src := true];
    ghost var paths: map<nat, seq<nat>> := map[src := []];
    while queue != []
      invariant SearchInv(jumps, src, visited, r, queue, paths)
      invariant Expanded(jumps, visited, r, queue, -1)
      decreases CountFalse(r) + |queue|
    {
      var u := queue[0];
      queue := queue[1..];
      r, queue, paths := VisitSuccessors(jumps, src, u, visited, r, queue, paths);
    }
    forall v | 0 <= v < |visited| && r[v] && !visited[v] ensures Reaches(jumps, src, v) {
      assert IsPath(jumps, src, v, paths[v]) && AllPositive(jumps, paths[v]);
    }
  }

  /// Marking and queueing an unmarked block with a positive path keeps the
  /// search invariant, and keeps every marked block marked.
  lemma {:induction false} MarkStep(jumps: seq<FlowJump>, src: nat, u: nat, visited: seq<bool>, r: seq<bool>,
                 queue: seq<nat>, paths: map<nat, seq<nat>>, dst: nat, p: seq<nat>)
    requires SearchInv(jumps, src, visited, r, queue, paths) && Expanded(jumps, visited, r, queue, u)
    requires dst < |r| && !r[dst] && IsPath(jumps, src, dst, p) && AllPositive(jumps, p)
    ensures SearchInv(jumps, src, visited, r[dst := true], queue + [dst], paths[dst := p])
    ensures Expanded(jumps, visited, r[dst := true], queue + [dst], u)
    ensures forall v :: 0 <= v < |r| && r[v] ==> r[dst := true][v]
  {
    var r' := r[dst := true];
    var q' := queue + [dst];
    forall j | 0 <= j < |jumps| && jumps[j].flow > 0 && jumps[j].source < |r'| && jumps[j].source < |visited| &&
      r'[jumps[j].source] && !visited[jumps[j].source] && jumps[j].source !in q' && jumps[j].source != u
      ensures jumps[j].target < |r'| && r'[jumps[j].target]
    {
      assert jumps[j].source != dst && r[jumps[j].source] && jumps[j].source !in queue;
    }
  }

  /// What holds after the first `i` successor jumps of `u` were looked at.
  ghost predicate VisitInv(jumps: seq<FlowJump>, src: nat, u: nat, visited: seq<bool>, succ: seq<nat>, i: nat,
                           r: seq<bool>, queue: seq<nat>, paths: map<nat, seq<nat>>, total: nat)
  {
    SearchInv(jumps, src, visited, r, queue, paths) &&
    i <= |succ| && u < |r| && r[u] && !visited[u] &&
    (forall k :: 0 <= k < |succ| ==> succ[k] < |jumps| && jumps[succ[k]].source == u) &&
    Expanded(jumps, visited, r, queue, u) &&
    (forall k :: 0 <= k < i ==> jumps[succ[k]].target < |r| && (jumps[succ[k]].flow > 0 ==> r[jumps[succ[k]].target])) &&
    CountFalse(r) + |queue| == total
  }

  /// Looking at successor jump `succ[i]` and marking its target when it is new.
  lemma {:induction false} VisitStep(jumps: seq<FlowJump>, src: nat, u: nat, visited: seq<bool>, succ: seq<nat>, i: nat,
                                     r: seq<bool>, queue: seq<nat>, paths: map<nat, seq<nat>>, total: nat)
    requires VisitInv(jumps, src, u, visited, succ, i, r, queue, paths, total) && i < |succ|
    requires forall j :: 0 <= j < |jumps| ==> jumps[j].target < |visited|
    ensures var dst := jumps[succ[i]].target;
      if jumps[succ[i]].flow > 0 && !r[dst] then
        u in paths && VisitInv(jumps, src, u, visited, succ, i + 1, r[dst := true], queue + [dst],
                               paths[dst := paths[u] + [succ[i]]], total)
      else VisitInv(jumps, src, u, visited, succ, i + 1, r, queue, paths, total)
  {
    var dst := jumps[succ[i]].target;
    if jumps[succ[i]].flow > 0 && !r[dst] {
      var p := paths[u] + [succ[i]];
      PathSnoc(jumps, src, u, paths[u], succ[i]);
      MarkStep(jumps, src, u, visited, r, queue, paths, dst, p);
      CountFalseMark(r, dst);
    }
  }

  /// One step of the search: marks and queues the unmarked targets of the
  /// positive-flow jumps leaving the marked block `u`.
  method VisitSuccessors(jumps: seq<FlowJump>, src: nat, u: nat, visited: seq<bool>, r0: seq<bool>,
                         queue0: seq<nat>, ghost paths0: map<nat, seq<nat>>)
    returns (r: seq<bool>, queue: seq<nat>, ghost paths: map<nat, seq<nat>>)
    requires forall j :: 0 <= j < |jumps| ==> jumps[j].source < |visited| && jumps[j].target < |visited|
    requires SearchInv(jumps, src, visited, r0, queue0, paths0) && u < |r0| && r0[u] && !visited[u]
    requires Expanded(jumps, visited, r0, queue0, u)
    ensures SearchInv(jumps, src, visited, r, queue, paths) && Expanded(jumps, visited, r, queue, -1)
    ensures CountFalse(r) + |queue| == CountFalse(r0) + |queue0|
  {
    r, queue, paths := r0, queue0, paths0;
    var succ := SuccJumps(jumps, u);
    SuccJumpsSpec(jumps, u);
    ghost var total := CountFalse(r0) + |queue0|;
    var i := 0;
    while i < |succ|
      invariant VisitInv(jumps, src, u, visited, succ, i, r, queue, paths, total)
    {
      VisitStep(jumps, src, u, visited, succ, i, r, queue, paths, total);
      var jmp := jumps[succ[i]];
      var dst := jmp.target;
      if jmp.flow > 0 && !r[dst] {
        paths := paths[dst := paths[u] + [succ[i]]];
        r := r[dst := true];
        queue := queue + [dst];
      }
      i := i + 1;
    }
    VisitDone(jumps, src, u, visited, succ, r, queue, paths, total);
  }

  /// Once every successor jump of `u` was looked at, `u` is fully expanded.
  lemma {:induction false} VisitDone(jumps: seq<FlowJump>, src: nat, u: nat, visited: seq<bool>, succ: seq<nat>,
                                     r: seq<bool>, queue: seq<nat>, paths: map<nat, seq<nat>>, total: nat)
    requires VisitInv(jumps, src, u, visited, succ, |succ|, r, queue, paths, total)
    requires forall j :: 0 <= j < |jumps| && jumps[j].source == u ==> j in succ
    ensures Expanded(jumps, visited, r, queue, -1)
  {
    forall j | 0 <= j < |jumps| && jumps[j].flow > 0 && jumps[j].source == u
      ensures jumps[j].target < |r| && r[jumps[j].target]
    {
      var k :| 0 <= k < |succ| && succ[k] == j;
    }
  }
}
