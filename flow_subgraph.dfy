// Finding a dangling subgraph (FlowAdjuster::findDanglingSubgraph) and
// ordering it topologically (FlowAdjuster::isAcyclicSubgraph).
module FlowSubgraph {
  import opened FlowGraph
  import opened FlowPaths
  import opened FlowDangling

  /// A dangling subgraph from `src`: its inner blocks `succs` are distinct,
  /// dangling, not exits and not `src`; `dst` is its one non-dangling block
  /// besides `src`; and every jump leaving `src` or an inner block ends at
  /// `src`, at `dst` or at an inner block.
  ghost predicate DanglingSubgraph(blocks: seq<FlowBlock>, jumps: seq<FlowJump>, src: nat, dst: nat, succs: seq<nat>)
  {
    src < |blocks| && dst < |blocks| && dst != src && !blocks[dst].dangling &&
    succs != [] && Distinct(succs) &&
    (forall k :: 0 <= k < |succs| ==>
      succs[k] < |blocks| && succs[k] != src && blocks[succs[k]].dangling && !IsExit(jumps, succs[k])) &&
    (forall j :: 0 <= j < |jumps| && (jumps[j].source == src || jumps[j].source in succs) ==>
      jumps[j].target == src || jumps[j].target == dst || jumps[j].target in succs)
  }

  // ----- findDanglingSubgraph -----

  /// Every jump of `path` leaves `src` or a block of `s`.
  ghost predicate InnerPath(jumps: seq<FlowJump>, src: nat, s: seq<nat>, path: seq<nat>)
  {
    forall k :: 0 <= k < |path| ==> path[k] < |jumps| && (jumps[path[k]].source == src || jumps[path[k]].source in s)
  }

  /// `d` and every block of `s` are reached from `src` along paths that leave
  /// only `src` and blocks of `s`.
  ghost predicate SubgraphReached(jumps: seq<FlowJump>, src: nat, d: nat, s: seq<nat>)
  {
    (exists p :: IsPath(jumps, src, d, p) && InnerPath(jumps, src, s, p)) &&
    (forall k :: 0 <= k < |s| ==> exists p :: IsPath(jumps, src, s[k], p) && InnerPath(jumps, src, s, p))
  }

  /// What the search found so far lies in every dangling subgraph from `src`:
  /// the inner blocks found are inner blocks of it, and `dst` is its `dst`.
  ghost predicate Within(blocks: seq<FlowBlock>, jumps: seq<FlowJump>, src: nat, succs: seq<nat>, hasDst: bool, dst: nat)
  {
    forall d, s :: DanglingSubgraph(blocks, jumps, src, d, s) ==>
      (forall x :: x in succs ==> x in s) && (hasDst ==> dst == d)
  }

  /// A non-dangling block entered from `src` or a found inner block, other
  /// than `src`, is the `dst` of every dangling subgraph from `src`.
  lemma {:induction false} WithinDst(blocks: seq<FlowBlock>, jumps: seq<FlowJump>, src: nat, succs: seq<nat>, hasDst: bool, dst: nat, j: nat)
    requires Within(blocks, jumps, src, succs, hasDst, dst)
    requires j < |jumps| && (jumps[j].source == src || jumps[j].source in succs)
    requires jumps[j].target != src && jumps[j].target < |blocks| && !blocks[jumps[j].target].dangling
    ensures forall d, s :: DanglingSubgraph(blocks, jumps, src, d, s) ==> d == jumps[j].target
    ensures hasDst && dst != jumps[j].target ==> forall d, s :: !DanglingSubgraph(blocks, jumps, src, d, s)
    ensures !hasDst ==> Within(blocks, jumps, src, succs, true, jumps[j].target)
  {
    var t := jumps[j].target;
    forall d, s | DanglingSubgraph(blocks, jumps, src, d, s) ensures d == t {
      assert jumps[j].source == src || jumps[j].source in s;
      if t in s {
        InnerNotDst(blocks, jumps, src, d, s, t);
      }
    }
  }

  /// A dangling block entered from `src` or a found inner block, other than
  /// `src`, is an inner block of every dangling subgraph from `src`.
  lemma {:induction false} WithinInner(blocks: seq<FlowBlock>, jumps: seq<FlowJump>, src: nat, succs: seq<nat>, hasDst: bool, dst: nat, j: nat)
    requires Within(blocks, jumps, src, succs, hasDst, dst)
    requires j < |jumps| && (jumps[j].source == src || jumps[j].source in succs)
    requires jumps[j].target != src && jumps[j].target < |blocks| && blocks[jumps[j].target].dangling
    ensures Within(blocks, jumps, src, succs + [jumps[j].target], hasDst, dst)
  {
    var t := jumps[j].target;
    forall d, s | DanglingSubgraph(blocks, jumps, src, d, s)
      ensures (forall x :: x in succs + [t] ==> x in s) && (hasDst ==> dst == d)
    {
      assert jumps[j].source == src || jumps[j].source in s;
      assert t != d;
    }
  }

  /// The search state: the marked blocks are `src`, the inner blocks found so
  /// far and, once found, `dst`; the queue holds `src` or inner blocks.
  ghost predicate SearchState(blocks: seq<FlowBlock>, jumps: seq<FlowJump>, src: nat, visited: seq<bool>,
                              queue: seq<nat>, succs: seq<nat>, hasDst: bool, dst: nat)
  {
    |visited| == |blocks| && src < |blocks| &&
    (forall j :: 0 <= j < |jumps| ==> jumps[j].source < |blocks| && jumps[j].target < |blocks|) &&
    (forall v :: 0 <= v < |visited| ==> (visited[v] <==> v == src || v in succs || (hasDst && v == dst))) &&
    (forall k :: 0 <= k < |queue| ==> queue[k] == src || queue[k] in succs) &&
    (hasDst ==> dst < |blocks| && dst != src && !blocks[dst].dangling) &&
    Distinct(succs) &&
    (forall k :: 0 <= k < |succs| ==> succs[k] < |blocks| && succs[k] != src && blocks[succs[k]].dangling)
  }

  /// Every block of the subgraph that left the queue, other than `except`,
  /// has all its successors marked.
  ghost predicate Explored(jumps: seq<FlowJump>, src: nat, visited: seq<bool>, queue: seq<nat>, succs: seq<nat>, except: int)
  {
    forall j :: 0 <= j < |jumps| && (jumps[j].source == src || jumps[j].source in succs) &&
                jumps[j].source !in queue && jumps[j].source != except
      ==> jumps[j].target < |visited| && visited[jumps[j].target]
  }

  /// What holds while the successor jumps of block `b` are looked at.
  ghost predicate ScanInv(blocks: seq<FlowBlock>, jumps: seq<FlowJump>, src: nat, b: nat, succ: seq<nat>, i: nat,
                          visited: seq<bool>, queue: seq<nat>, succs: seq<nat>, hasDst: bool, dst: nat, bound: nat)
  {
    SearchState(blocks, jumps, src, visited, queue, succs, hasDst, dst) &&
    Explored(jumps, src, visited, queue, succs, b) &&
    (b == src || b in succs) && i <= |succ| &&
    (forall k :: 0 <= k < |succ| ==> succ[k] < |jumps| && jumps[succ[k]].source == b) &&
    (forall k :: 0 <= k < i ==> visited[jumps[succ[k]].target]) &&
    CountFalse(visited) + |queue| <= bound &&
    Within(blocks, jumps, src, succs, hasDst, dst)
  }

  /// A successor already marked is skipped.
  lemma {:induction false} ScanSkip(blocks: seq<FlowBlock>, jumps: seq<FlowJump>, src: nat, b: nat, succ: seq<nat>, i: nat,
                                    visited: seq<bool>, queue: seq<nat>, succs: seq<nat>, hasDst: bool, dst: nat, bound: nat)
    requires ScanInv(blocks, jumps, src, b, succ, i, visited, queue, succs, hasDst, dst, bound) && i < |succ|
    requires visited[jumps[succ[i]].target]
    ensures ScanInv(blocks, jumps, src, b, succ, i + 1, visited, queue, succs, hasDst, dst, bound)
  {
  }

  /// An unmarked non-dangling successor differs from `dst`, and becomes `dst`
  /// when there is none yet.
  lemma {:induction false} ScanMarkDst(blocks: seq<FlowBlock>, jumps: seq<FlowJump>, src: nat, b: nat, succ: seq<nat>, i: nat,
                                       visited: seq<bool>, queue: seq<nat>, succs: seq<nat>, hasDst: bool, dst: nat, bound: nat)
    requires ScanInv(blocks, jumps, src, b, succ, i, visited, queue, succs, hasDst, dst, bound) && i < |succ|
    requires var t := jumps[succ[i]].target; !visited[t] && !blocks[t].dangling
    ensures hasDst ==> dst != jumps[succ[i]].target
    ensures hasDst ==> forall d, s :: !DanglingSubgraph(blocks, jumps, src, d, s)
    ensures !hasDst ==> var t := jumps[succ[i]].target;
      ScanInv(blocks, jumps, src, b, succ, i + 1, visited[t := true], queue, succs, true, t, bound)
  {
    var t := jumps[succ[i]].target;
    CountFalseMark(visited, t);
    WithinDst(blocks, jumps, src, succs, hasDst, dst, succ[i]);
  }

  /// An unmarked dangling successor is marked, queued and recorded as an inner block.
  lemma {:induction false} ScanMarkInner(blocks: seq<FlowBlock>, jumps: seq<FlowJump>, src: nat, b: nat, succ: seq<nat>, i: nat,
                                         visited: seq<bool>, queue: seq<nat>, succs: seq<nat>, hasDst: bool, dst: nat, bound: nat)
    requires ScanInv(blocks, jumps, src, b, succ, i, visited, queue, succs, hasDst, dst, bound) && i < |succ|
    requires var t := jumps[succ[i]].target; !visited[t] && blocks[t].dangling
    ensures var t := jumps[succ[i]].target;
      ScanInv(blocks, jumps, src, b, succ, i + 1, visited[t := true], queue + [t], succs + [t], hasDst, dst, bound)
  {
    var t := jumps[succ[i]].target;
    CountFalseMark(visited, t);
    WithinInner(blocks, jumps, src, succs, hasDst, dst, succ[i]);
    var v', q', s' := visited[t := true], queue + [t], succs + [t];
    assert t !in succs;
    assert forall x :: x in s' <==> x in succs || x == t;
    assert forall x :: x in q' <==> x in queue || x == t;
    assert SearchState(blocks, jumps, src, v', q', s', hasDst, dst) by {
      assert Distinct(s') by {
        forall p, q | 0 <= p < q < |s'| ensures s'[p] != s'[q] {
          assert s'[p] == succs[p];
          if q < |succs| {
            assert s'[q] == succs[q];
          }
        }
      }
      assert forall k :: 0 <= k < |q'| ==> q'[k] == src || q'[k] in s' by {
        forall k | 0 <= k < |q'| ensures q'[k] == src || q'[k] in s' {
          if k < |queue| {
            assert q'[k] == queue[k];
          }
        }
      }
      assert forall k :: 0 <= k < |s'| ==> s'[k] < |blocks| && s'[k] != src && blocks[s'[k]].dangling by {
        forall k | 0 <= k < |s'| ensures s'[k] < |blocks| && s'[k] != src && blocks[s'[k]].dangling {
          if k < |succs| {
            assert s'[k] == succs[k];
          }
        }
      }
    }
    assert Explored(jumps, src, v', q', s', b);
  }

  /// Once every successor jump of `b` was looked at, `b` is explored.
  lemma {:induction false} ScanDone(blocks: seq<FlowBlock>, jumps: seq<FlowJump>, src: nat, b: nat, succ: seq<nat>,
                                    visited: seq<bool>, queue: seq<nat>, succs: seq<nat>, hasDst: bool, dst: nat, bound: nat)
    requires ScanInv(blocks, jumps, src, b, succ, |succ|, visited, queue, succs, hasDst, dst, bound)
    requires forall j :: 0 <= j < |jumps| && jumps[j].source == b ==> j in succ
    ensures Explored(jumps, src, visited, queue, succs, -1)
  {
    forall j | 0 <= j < |jumps| && jumps[j].source == b
      ensures jumps[j].target < |visited| && visited[jumps[j].target]
    {
      var k :| 0 <= k < |succ| && succ[k] == j;
    }
  }

  /// The inner loop of findDanglingSubgraph: the successors of `b`, taken
  /// off the queue, are marked; it fails on a second non-dangling block.
  method ScanSuccessors(blocks: seq<FlowBlock>, jumps: seq<FlowJump>, src: nat, b: nat,
                        visited: seq<bool>, queue: seq<nat>, succs: seq<nat>, hasDst: bool, dst: nat)
    returns (fail: bool, visited': seq<bool>, queue': seq<nat>, succs': seq<nat>, hasDst': bool, dst': nat)
    requires SearchState(blocks, jumps, src, visited, queue, succs, hasDst, dst)
    requires Explored(jumps, src, visited, queue, succs, b) && (b == src || b in succs)
    requires queue == [] || src !in queue
    requires Within(blocks, jumps, src, succs, hasDst, dst)
    ensures fail ==> forall d, s :: !DanglingSubgraph(blocks, jumps, src, d, s)
    ensures !fail ==> Within(blocks, jumps, src, succs', hasDst', dst')
    ensures !fail ==> SearchState(blocks, jumps, src, visited', queue', succs', hasDst', dst')
    ensures !fail ==> Explored(jumps, src, visited', queue', succs', -1)
    ensures !fail ==> (queue' == [] || src !in queue')
    ensures !fail ==> CountFalse(visited') + |queue'| <= CountFalse(visited) + |queue|
  {
    ghost var bound := CountFalse(visited) + |queue|;
    visited', queue', succs', hasDst', dst' := visited, queue, succs, hasDst, dst;
    var succ := SuccJumps(jumps, b);
    SuccJumpsSpec(jumps, b);
    var i := 0;
    while i < |succ|
      invariant ScanInv(blocks, jumps, src, b, succ, i, visited', queue', succs', hasDst', dst', bound)
      invariant queue' == [] || src !in queue'
    {
      var t := jumps[succ[i]].target;
      if visited'[t] {
        ScanSkip(blocks, jumps, src, b, succ, i, visited', queue', succs', hasDst', dst', bound);
      } else if !blocks[t].dangling {
        ScanMarkDst(blocks, jumps, src, b, succ, i, visited', queue', succs', hasDst', dst', bound);
        if hasDst' && dst' != t {
          return true, visited', queue', succs', hasDst', dst';
        }
        visited' := visited'[t := true];
        hasDst', dst' := true, t;
      } else {
        ScanMarkInner(blocks, jumps, src, b, succ, i, visited', queue', succs', hasDst', dst', bound);
        visited' := visited'[t := true];
        queue' := queue' + [t];
        succs' := succs' + [t];
      }
      i := i + 1;
    }
    ScanDone(blocks, jumps, src, b, succ, visited', queue', succs', hasDst', dst', bound);
    fail := false;
  }

  /// findDanglingSubgraph: a breadth-first search from `src` that queues the
  /// dangling blocks it meets and records the first non-dangling one as
  /// `dst`. It fails on a second non-dangling block, without dangling blocks,
  /// without `dst`, or when a dangling block is an exit.
  method FindDanglingSubgraph(blocks: seq<FlowBlock>, jumps: seq<FlowJump>, src: nat)
    returns (ok: bool, dst: nat, succs: seq<nat>)
    requires src < |blocks|
    requires forall j :: 0 <= j < |jumps| ==> jumps[j].source < |blocks| && jumps[j].target < |blocks|
    ensures ok ==> DanglingSubgraph(blocks, jumps, src, dst, succs)
    ensures (exists d, s :: DanglingSubgraph(blocks, jumps, src, d, s) && SubgraphReached(jumps, src, d, s)) ==> ok
  {
    var n := |blocks|;
    var visited := seq(n, _ => false);
    var queue: seq<nat> := [src];
    visited := visited[src := true];
    var hasDst := false;
    dst, succs := 0, [];
    while queue != []
      invariant SearchState(blocks, jumps, src, visited, queue, succs, hasDst, dst)
      invariant Explored(jumps, src, visited, queue, succs, -1)
      invariant queue == [src] || src !in queue
      invariant Within(blocks, jumps, src, succs, hasDst, dst)
      decreases CountFalse(visited) + |queue|
    {
      ghost var before := queue;
      var b := queue[0];
      queue := queue[1..];
      assert before == [b] + queue;
      var fail;
      fail, visited, queue, succs, hasDst, dst := ScanSuccessors(blocks, jumps, src, b, visited, queue, succs, hasDst, dst);
      if fail {
        return false, dst, succs;
      }
    }
    SearchOutcome(blocks, jumps, src, visited, succs, hasDst, dst);
    if succs == [] || !hasDst {
      return false, dst, succs;
    }
    var exitFound := HasExit(jumps, succs);
    ok := !exitFound;
  }

  /// The final check of findDanglingSubgraph: whether an inner block is an exit.
  method HasExit(jumps: seq<FlowJump>, succs: seq<nat>) returns (found: bool)
    ensures found <==> exists k :: 0 <= k < |succs| && IsExit(jumps, succs[k])
  {
    var k := 0;
    while k < |succs|
      invariant 0 <= k <= |succs|
      invariant forall m :: 0 <= m < k ==> !IsExit(jumps, succs[m])
    {
      if IsExit(jumps, succs[k]) {
        return true;
      }
      k := k + 1;
    }
    return false;
  }

  /// Once the search is over, every block reached from `src` along a path
  /// that leaves only `src` and inner blocks of a dangling subgraph is marked.
  lemma {:induction false} InnerPathMarked(blocks: seq<FlowBlock>, jumps: seq<FlowJump>, src: nat, visited: seq<bool>,
                                           succs: seq<nat>, hasDst: bool, dst: nat, d: nat, s: seq<nat>, x: nat, path: seq<nat>)
    requires SearchState(blocks, jumps, src, visited, [], succs, hasDst, dst) && Explored(jumps, src, visited, [], succs, -1)
    requires Within(blocks, jumps, src, succs, hasDst, dst) && DanglingSubgraph(blocks, jumps, src, d, s)
    requires IsPath(jumps, src, x, path) && InnerPath(jumps, src, s, path)
    ensures x < |visited| && visited[x]
    decreases |path|
  {
    if path != [] {
      var init := path[..|path| - 1];
      var last := path[|path| - 1];
      var u := jumps[last].source;
      assert IsPath(jumps, src, u, init) by {
        if init != [] {
          assert jumps[init[|init| - 1]].target == jumps[path[|path| - 1]].source;
        }
      }
      assert InnerPath(jumps, src, s, init) by {
        forall k | 0 <= k < |init| ensures init[k] == path[k] { }
      }
      InnerPathMarked(blocks, jumps, src, visited, succs, hasDst, dst, d, s, u, init);
      if u != src {
        InnerNotDst(blocks, jumps, src, d, s, u);
      }
    }
  }

  /// The search, once over, found a `dst`, some inner blocks and no exit
  /// among them when a dangling subgraph from `src` is reached through itself.
  lemma {:induction false} SearchOutcome(blocks: seq<FlowBlock>, jumps: seq<FlowJump>, src: nat, visited: seq<bool>,
                                         succs: seq<nat>, hasDst: bool, dst: nat)
    requires SearchState(blocks, jumps, src, visited, [], succs, hasDst, dst) && Explored(jumps, src, visited, [], succs, -1)
    requires Within(blocks, jumps, src, succs, hasDst, dst)
    ensures (exists d, s :: DanglingSubgraph(blocks, jumps, src, d, s) && SubgraphReached(jumps, src, d, s)) ==>
      succs != [] && hasDst && forall k :: 0 <= k < |succs| ==> !IsExit(jumps, succs[k])
  {
    if exists d, s :: DanglingSubgraph(blocks, jumps, src, d, s) && SubgraphReached(jumps, src, d, s) {
      var d, s :| DanglingSubgraph(blocks, jumps, src, d, s) && SubgraphReached(jumps, src, d, s);
      SearchFindsSubgraph(blocks, jumps, src, visited, succs, hasDst, dst, d, s);
    }
  }

  /// The inner blocks of a dangling subgraph are dangling, so none is its `dst`.
  lemma {:induction false} InnerNotDst(blocks: seq<FlowBlock>, jumps: seq<FlowJump>, src: nat, d: nat, s: seq<nat>, x: nat)
    requires DanglingSubgraph(blocks, jumps, src, d, s) && x in s
    ensures x < |blocks| && blocks[x].dangling && x != d
  {
    var k :| 0 <= k < |s| && s[k] == x;
  }

  /// When a dangling subgraph from `src` is reached from `src` through
  /// itself, the search marks its `dst` and at least one inner block.
  lemma {:induction false} SearchFindsSubgraph(blocks: seq<FlowBlock>, jumps: seq<FlowJump>, src: nat, visited: seq<bool>,
                                               succs: seq<nat>, hasDst: bool, dst: nat, d: nat, s: seq<nat>)
    requires SearchState(blocks, jumps, src, visited, [], succs, hasDst, dst) && Explored(jumps, src, visited, [], succs, -1)
    requires Within(blocks, jumps, src, succs, hasDst, dst)
    requires DanglingSubgraph(blocks, jumps, src, d, s) && SubgraphReached(jumps, src, d, s)
    ensures succs != [] && hasDst
    ensures forall k :: 0 <= k < |succs| ==> !IsExit(jumps, succs[k])
  {
    var pd :| IsPath(jumps, src, d, pd) && InnerPath(jumps, src, s, pd);
    InnerPathMarked(blocks, jumps, src, visited, succs, hasDst, dst, d, s, d, pd);
    assert d !in succs;
    var ps :| IsPath(jumps, src, s[0], ps) && InnerPath(jumps, src, s, ps);
    InnerPathMarked(blocks, jumps, src, visited, succs, hasDst, dst, d, s, s[0], ps);
    assert s[0] != d;
    forall k | 0 <= k < |succs| ensures !IsExit(jumps, succs[k]) {
      assert succs[k] in s;
      var m :| 0 <= m < |s| && s[m] == succs[k];
    }
  }

  // ----- isAcyclicSubgraph -----

  /// Number of the listed jumps that enter `v`.
  function CountTo(jumps: seq<FlowJump>, js: seq<nat>, v: nat): nat
  {
    if js == [] then 0
    else
      var last := js[|js| - 1];
      CountTo(jumps, js[..|js| - 1], v) + (if last < |jumps| && jumps[last].target == v then 1 else 0)
  }

  /// Number of jumps from `b` to `v`.
  function JumpCount(jumps: seq<FlowJump>, b: nat, v: nat): nat
  {
    CountTo(jumps, SuccJumps(jumps, b), v)
  }

  /// The local in-degree of `v`: the number of jumps into `v` from the
  /// blocks of `members` that are not in `done`.
  function Pending(jumps: seq<FlowJump>, members: seq<nat>, done: seq<nat>, v: nat): nat
  {
    if members == [] then 0
    else
      var last := members[|members| - 1];
      Pending(jumps, members[..|members| - 1], done, v) + (if last in done then 0 else JumpCount(jumps, last, v))
  }

  lemma {:induction false} CountToSnoc(jumps: seq<FlowJump>, js: seq<nat>, i: nat, v: nat)
    requires i < |js|
    ensures CountTo(jumps, js[..i + 1], v) ==
      CountTo(jumps, js[..i], v) + (if js[i] < |jumps| && jumps[js[i]].target == v then 1 else 0)
  {
    assert js[..i + 1][..i] == js[..i];
  }

  lemma {:induction false} CountToPrefix(jumps: seq<FlowJump>, js: seq<nat>, i: nat, v: nat)
    requires i <= |js|
    ensures CountTo(jumps, js[..i], v) <= CountTo(jumps, js, v)
    decreases |js| - i
  {
    if i < |js| {
      CountToSnoc(jumps, js, i, v);
      CountToPrefix(jumps, js, i + 1, v);
    } else {
      assert js[..i] == js;
    }
  }

  lemma {:induction false} CountToPositive(jumps: seq<FlowJump>, js: seq<nat>, k: nat, v: nat)
    requires k < |js| && js[k] < |jumps| && jumps[js[k]].target == v
    ensures CountTo(jumps, js, v) >= 1
    decreases |js|
  {
    if k < |js| - 1 {
      CountToPositive(jumps, js[..|js| - 1], k, v);
    }
  }

  lemma {:induction false} PendingSnoc(jumps: seq<FlowJump>, members: seq<nat>, m: nat, done: seq<nat>, v: nat)
    requires m < |members|
    ensures Pending(jumps, members[..m + 1], done, v) ==
      Pending(jumps, members[..m], done, v) + (if members[m] in done then 0 else JumpCount(jumps, members[m], v))
  {
    assert members[..m + 1][..m] == members[..m];
  }

  /// Ordering a block outside `members` changes no local in-degree.
  lemma {:induction false} PendingOther(jumps: seq<FlowJump>, members: seq<nat>, done: seq<nat>, b: nat, v: nat)
    requires b !in members
    ensures Pending(jumps, members, done + [b], v) == Pending(jumps, members, done, v)
    decreases |members|
  {
    if members != [] {
      PendingOther(jumps, members[..|members| - 1], done, b, v);
    }
  }

  /// Ordering a member removes its jumps from every local in-degree.
  lemma {:induction false} PendingDone(jumps: seq<FlowJump>, members: seq<nat>, done: seq<nat>, b: nat, v: nat)
    requires Distinct(members) && b in members && b !in done
    ensures Pending(jumps, members, done + [b], v) == Pending(jumps, members, done, v) - JumpCount(jumps, b, v)
    decreases |members|
  {
    var init, last := members[..|members| - 1], members[|members| - 1];
    if last == b {
      assert b !in init by {
        forall k | 0 <= k < |init| ensures init[k] != b {
          assert init[k] == members[k];
        }
      }
      PendingOther(jumps, init, done, b, v);
    } else {
      PendingDone(jumps, init, done, b, v);
    }
  }

  /// A member not yet ordered contributes all its jumps to the local in-degree.
  lemma {:induction false} PendingAtLeast(jumps: seq<FlowJump>, members: seq<nat>, done: seq<nat>, s: nat, v: nat)
    requires s in members && s !in done
    ensures Pending(jumps, members, done, v) >= JumpCount(jumps, s, v)
    decreases |members|
  {
    if members[|members| - 1] != s {
      PendingAtLeast(jumps, members[..|members| - 1], done, s, v);
    }
  }

  /// A jump from a member not yet ordered makes the local in-degree of its target positive.
  lemma {:induction false} PendingPositive(jumps: seq<FlowJump>, members: seq<nat>, done: seq<nat>, j: nat)
    requires j < |jumps| && jumps[j].source in members && jumps[j].source !in done
    ensures Pending(jumps, members, done, jumps[j].target) >= 1
  {
    var s := jumps[j].source;
    SuccJumpsSpec(jumps, s);
    var k :| 0 <= k < |SuccJumps(jumps, s)| && SuccJumps(jumps, s)[k] == j;
    CountToPositive(jumps, SuccJumps(jumps, s), k, jumps[j].target);
    PendingAtLeast(jumps, members, done, s, jumps[j].target);
  }

  /// The inner loop of the in-degree count for block `b`: one more for the
  /// target of each jump leaving `b`.
  method CountSuccessors(jumps: seq<FlowJump>, b: nat, deg: seq<int>) returns (deg': seq<int>)
    requires forall j :: 0 <= j < |jumps| ==> jumps[j].target < |deg|
    ensures |deg'| == |deg| && forall v :: 0 <= v < |deg| ==> deg'[v] == deg[v] + JumpCount(jumps, b, v)
  {
    var succ := SuccJumps(jumps, b);
    SuccJumpsSpec(jumps, b);
    deg' := deg;
    var i := 0;
    while i < |succ|
      invariant 0 <= i <= |succ| && |deg'| == |deg|
      invariant forall v :: 0 <= v < |deg| ==> deg'[v] == deg[v] + CountTo(jumps, succ[..i], v)
    {
      forall v | 0 <= v < |deg| {
        CountToSnoc(jumps, succ, i, v);
      }
      var t := jumps[succ[i]].target;
      deg' := deg'[t := deg'[t] + 1];
      i := i + 1;
    }
    assert succ[..i] == succ;
  }

  /// Every block ordered so far had no pending jumps into it when it was ordered.
  ghost predicate OrderedSoFar(jumps: seq<FlowJump>, members: seq<nat>, order: seq<nat>)
  {
    Distinct(order) &&
    forall k :: 0 <= k < |order| ==> order[k] in members && Pending(jumps, members, order[..k], order[k]) == 0
  }

  /// The fixed facts of the ordering phase.
  ghost predicate KahnSetup(jumps: seq<FlowJump>, n: nat, members: seq<nat>, dst: nat)
  {
    Distinct(members) && (forall k :: 0 <= k < |members| ==> members[k] < n) && dst < n && dst !in members &&
    (forall j :: 0 <= j < |jumps| ==> jumps[j].source < n && jumps[j].target < n) &&
    (forall j :: 0 <= j < |jumps| && jumps[j].source in members ==> jumps[j].target in members || jumps[j].target == dst)
  }

  /// The queue holds distinct blocks of the subgraph (or `dst`) with no
  /// pending jumps, none of them ordered yet.
  ghost predicate QueueOk(members: seq<nat>, dst: nat, deg: seq<int>, queue: seq<nat>, order: seq<nat>)
  {
    Distinct(queue) &&
    forall k :: 0 <= k < |queue| ==>
      (queue[k] in members || queue[k] == dst) && queue[k] !in order && queue[k] < |deg| && deg[queue[k]] == 0
  }

  /// Every block entered from an ordered block, not ordered itself and with
  /// no pending jumps left, is queued.
  ghost predicate Fed(jumps: seq<FlowJump>, deg: seq<int>, queue: seq<nat>, order: seq<nat>)
  {
    forall j :: (0 <= j < |jumps| && jumps[j].source in order && jumps[j].target !in order &&
                 jumps[j].target < |deg| && deg[jumps[j].target] == 0) ==> jumps[j].target in queue
  }

  /// Fed while the jumps leaving `b` are processed: only the first `i` of
  /// them count as processed.
  ghost predicate DrainFed(jumps: seq<FlowJump>, deg: seq<int>, queue: seq<nat>, done: seq<nat>, b: nat, succ: seq<nat>, i: nat)
    requires i <= |succ|
  {
    forall j :: (0 <= j < |jumps| && (jumps[j].source in done || j in succ[..i]) && jumps[j].target !in done + [b] &&
                 jumps[j].target < |deg| && deg[jumps[j].target] == 0) ==> jumps[j].target in queue
  }

  /// The state of the ordering loop between two blocks.
  ghost predicate KahnInv(jumps: seq<FlowJump>, n: nat, members: seq<nat>, dst: nat, deg: seq<int>,
                          queue: seq<nat>, order: seq<nat>)
  {
    KahnSetup(jumps, n, members, dst) && |deg| == n &&
    (forall v :: 0 <= v < n ==> deg[v] == Pending(jumps, members, order, v)) &&
    QueueOk(members, dst, deg, queue, order) &&
    OrderedSoFar(jumps, members, order) &&
    (forall k :: 0 <= k < |order| ==> order[k] < n && deg[order[k]] == 0) &&
    |order| <= |members| &&
    Fed(jumps, deg, queue, order)
  }

  /// The state of the ordering loop while the jumps leaving `b` are processed;
  /// `done` is the order before `b`.
  ghost predicate DrainInv(jumps: seq<FlowJump>, n: nat, members: seq<nat>, dst: nat, deg: seq<int>,
                           queue: seq<nat>, done: seq<nat>, b: nat, succ: seq<nat>, i: nat)
  {
    DrainKept(jumps, n, members, dst, done, b, succ) && |deg| == n && i <= |succ| &&
    (forall v :: 0 <= v < n ==> deg[v] == Pending(jumps, members, done, v) - CountTo(jumps, succ[..i], v)) &&
    QueueOk(members, dst, deg, queue, done + [b]) &&
    ZeroDeg(deg, done + [b]) &&
    DrainFed(jumps, deg, queue, done, b, succ, i)
  }

  /// Every ordered block is a block of the graph with no pending jumps.
  ghost predicate ZeroDeg(deg: seq<int>, order: seq<nat>)
  {
    forall k :: 0 <= k < |order| ==> order[k] < |deg| && deg[order[k]] == 0
  }

  /// The facts of the inner loop that the processed jumps do not change.
  ghost predicate DrainKept(jumps: seq<FlowJump>, n: nat, members: seq<nat>, dst: nat, done: seq<nat>, b: nat, succ: seq<nat>)
  {
    KahnSetup(jumps, n, members, dst) &&
    b in members && b !in done && succ == SuccJumps(jumps, b) &&
    (forall k :: 0 <= k < |succ| ==> succ[k] < |jumps| && jumps[succ[k]].source == b) &&
    (forall v :: 0 <= v < n ==>
      Pending(jumps, members, done + [b], v) == Pending(jumps, members, done, v) - JumpCount(jumps, b, v)) &&
    OrderedSoFar(jumps, members, done + [b]) &&
    |done + [b]| <= |members|
  }

  /// Taking `b` off the queue and ordering it starts the inner loop.
  lemma {:induction false} DrainStart(jumps: seq<FlowJump>, n: nat, members: seq<nat>, dst: nat, deg: seq<int>,
                                      queue: seq<nat>, order: seq<nat>, b: nat)
    requires KahnInv(jumps, n, members, dst, deg, [b] + queue, order) && b != dst
    ensures DrainInv(jumps, n, members, dst, deg, queue, order, b, SuccJumps(jumps, b), 0)
  {
    var q := [b] + queue;
    assert q[0] == b;
    var succ := SuccJumps(jumps, b);
    assert succ[..0] == [];
    DrainStartKept(jumps, n, members, dst, deg, order, b);
    DrainStartQueue(members, dst, deg, queue, order, b);
    DrainStartFed(jumps, deg, queue, order, b, succ);
  }

  /// Ordering `b`, a member with no pending jumps, keeps the order's facts.
  lemma {:induction false} DrainStartKept(jumps: seq<FlowJump>, n: nat, members: seq<nat>, dst: nat, deg: seq<int>,
                                          order: seq<nat>, b: nat)
    requires KahnSetup(jumps, n, members, dst) && |deg| == n
    requires forall v :: 0 <= v < n ==> deg[v] == Pending(jumps, members, order, v)
    requires OrderedSoFar(jumps, members, order)
    requires b in members && b !in order && b < |deg| && deg[b] == 0
    ensures DrainKept(jumps, n, members, dst, order, b, SuccJumps(jumps, b))
  {
    SuccJumpsSpec(jumps, b);
    forall v | 0 <= v < n
      ensures Pending(jumps, members, order + [b], v) == Pending(jumps, members, order, v) - JumpCount(jumps, b, v)
    {
      PendingDone(jumps, members, order, b, v);
    }
    var o := order + [b];
    assert o[..|order|] == order;
    forall k | 0 <= k < |o| ensures o[k] in members && Pending(jumps, members, o[..k], o[k]) == 0 {
      if k < |order| {
        assert o[..k] == order[..k];
      }
    }
    DistinctBound(o, members);
  }

  /// Taking `b` off the front of the queue and ordering it keeps the
  /// queue's facts.
  lemma {:induction false} DrainStartQueue(members: seq<nat>, dst: nat, deg: seq<int>, queue: seq<nat>, order: seq<nat>, b: nat)
    requires QueueOk(members, dst, deg, [b] + queue, order)
    requires forall k :: 0 <= k < |order| ==> order[k] < |deg| && deg[order[k]] == 0
    ensures QueueOk(members, dst, deg, queue, order + [b]) && ZeroDeg(deg, order + [b])
  {
    var q := [b] + queue;
    assert q[0] == b;
    forall k | 0 <= k < |queue| ensures queue[k] != b {
      assert q[k + 1] == queue[k];
    }
    assert forall k :: 0 <= k < |queue| ==> queue[k] == q[k + 1];
  }

  /// Before any jump of `b` is processed, Fed for the queue with `b` in
  /// front gives DrainFed for the rest of the queue.
  lemma {:induction false} DrainStartFed(jumps: seq<FlowJump>, deg: seq<int>, queue: seq<nat>, order: seq<nat>, b: nat, succ: seq<nat>)
    requires Fed(jumps, deg, [b] + queue, order)
    ensures DrainFed(jumps, deg, queue, order, b, succ, 0)
  {
    assert succ[..0] == [];
  }

  /// Processing successor jump `succ[i]` of `b`: its target's in-degree drops
  /// by one, and the target is queued when it reaches zero.
  lemma {:induction false} DrainStep(jumps: seq<FlowJump>, n: nat, members: seq<nat>, dst: nat, deg: seq<int>,
                                     queue: seq<nat>, done: seq<nat>, b: nat, succ: seq<nat>, i: nat,
                                     deg': seq<int>, queue': seq<nat>)
    requires DrainInv(jumps, n, members, dst, deg, queue, done, b, succ, i) && i < |succ|
    requires jumps[succ[i]].target < |deg|
    requires deg' == deg[jumps[succ[i]].target := deg[jumps[succ[i]].target] - 1]
    requires queue' == if deg'[jumps[succ[i]].target] == 0 then queue + [jumps[succ[i]].target] else queue
    ensures DrainInv(jumps, n, members, dst, deg', queue', done, b, succ, i + 1)
  {
    var t := jumps[succ[i]].target;
    DegPositive(jumps, n, members, done, b, deg, succ, i);
    assert t in members || t == dst;
    QueueStep(members, dst, deg, queue, done + [b], t, deg', queue');
    DrainFedStep(jumps, deg, queue, done, b, succ, i, deg', queue');
    DegStep(jumps, n, members, done, deg, succ, i, deg');
  }

  /// The target of a jump still to be processed has a positive count.
  lemma {:induction false} DegPositive(jumps: seq<FlowJump>, n: nat, members: seq<nat>, done: seq<nat>, b: nat, deg: seq<int>,
                                       succ: seq<nat>, i: nat)
    requires |deg| == n && i < |succ| && succ[i] < |jumps| && jumps[succ[i]].target < n && succ == SuccJumps(jumps, b)
    requires forall v :: 0 <= v < n ==> deg[v] == Pending(jumps, members, done, v) - CountTo(jumps, succ[..i], v)
    requires forall v :: 0 <= v < n ==>
      Pending(jumps, members, done + [b], v) == Pending(jumps, members, done, v) - JumpCount(jumps, b, v)
    ensures deg[jumps[succ[i]].target] >= 1
  {
    var t := jumps[succ[i]].target;
    CountToSnoc(jumps, succ, i, t);
    CountToPrefix(jumps, succ, i + 1, t);
  }

  /// The in-degree bookkeeping of one processed jump: its target's count
  /// now also discounts that jump.
  lemma {:induction false} DegStep(jumps: seq<FlowJump>, n: nat, members: seq<nat>, done: seq<nat>, deg: seq<int>,
                                   succ: seq<nat>, i: nat, deg': seq<int>)
    requires |deg| == n && i < |succ| && succ[i] < |jumps| && jumps[succ[i]].target < n
    requires forall v :: 0 <= v < n ==> deg[v] == Pending(jumps, members, done, v) - CountTo(jumps, succ[..i], v)
    requires deg' == deg[jumps[succ[i]].target := deg[jumps[succ[i]].target] - 1]
    ensures forall v :: 0 <= v < n ==> deg'[v] == Pending(jumps, members, done, v) - CountTo(jumps, succ[..i + 1], v)
  {
    forall v | 0 <= v < n
      ensures deg'[v] == Pending(jumps, members, done, v) - CountTo(jumps, succ[..i + 1], v)
    {
      CountToSnoc(jumps, succ, i, v);
    }
  }

  /// Queueing the target when its count reaches zero keeps the queue's facts.
  lemma {:induction false} QueueStep(members: seq<nat>, dst: nat, deg: seq<int>, queue: seq<nat>, o: seq<nat>, t: nat,
                                     deg': seq<int>, queue': seq<nat>)
    requires QueueOk(members, dst, deg, queue, o) && ZeroDeg(deg, o)
    requires t < |deg| && deg[t] >= 1 && (t in members || t == dst)
    requires deg' == deg[t := deg[t] - 1]
    requires queue' == if deg'[t] == 0 then queue + [t] else queue
    ensures QueueOk(members, dst, deg', queue', o) && ZeroDeg(deg', o)
  {
    if deg'[t] == 0 {
      forall k | 0 <= k < |queue'| ensures queue'[k] != t || k == |queue| {
        if k < |queue| {
          assert queue'[k] == queue[k];
        }
      }
    }
  }

  /// The jump just processed keeps DrainFed: its target is queued if its count reached zero.
  lemma {:induction false} DrainFedStep(jumps: seq<FlowJump>, deg: seq<int>, queue: seq<nat>, done: seq<nat>, b: nat,
                                        succ: seq<nat>, i: nat, deg': seq<int>, queue': seq<nat>)
    requires i < |succ| && succ[i] < |jumps| && jumps[succ[i]].target < |deg|
    requires DrainFed(jumps, deg, queue, done, b, succ, i)
    requires deg' == deg[jumps[succ[i]].target := deg[jumps[succ[i]].target] - 1]
    requires queue' == if deg'[jumps[succ[i]].target] == 0 then queue + [jumps[succ[i]].target] else queue
    ensures DrainFed(jumps, deg', queue', done, b, succ, i + 1)
  {
    var t := jumps[succ[i]].target;
    assert succ[..i + 1] == succ[..i] + [succ[i]];
    forall j | (0 <= j < |jumps| && (jumps[j].source in done || j in succ[..i + 1]) && jumps[j].target !in done + [b] &&
                jumps[j].target < |deg'| && deg'[jumps[j].target] == 0)
      ensures jumps[j].target in queue'
    {
      if jumps[j].target != t {
        assert j != succ[i];
        assert j in succ[..i] || jumps[j].source in done;
      }
    }
  }

  /// After the last jump of `b`, the loop state holds again with `b` ordered.
  lemma {:induction false} DrainDone(jumps: seq<FlowJump>, n: nat, members: seq<nat>, dst: nat, deg: seq<int>,
                                     queue: seq<nat>, done: seq<nat>, b: nat, succ: seq<nat>)
    requires DrainInv(jumps, n, members, dst, deg, queue, done, b, succ, |succ|)
    ensures KahnInv(jumps, n, members, dst, deg, queue, done + [b])
  {
    assert succ[..|succ|] == succ;
    SuccJumpsSpec(jumps, b);
  }

  /// The blocks listed in `s`.
  function Elems(s: seq<nat>): (r: set<nat>)
    ensures forall x :: x in r <==> x in s
  {
    set x | x in s
  }

  /// A distinct list drawn from `members` is no longer than `members`, and
  /// holds all of it when it is as long.
  lemma {:induction false} DistinctBound(s: seq<nat>, members: seq<nat>)
    requires Distinct(s) && forall k :: 0 <= k < |s| ==> s[k] in members
    ensures |s| <= |members|
    ensures |s| == |members| ==> forall x :: x in members ==> x in s
  {
    var S, T := Elems(s), Elems(members);
    DistinctCard(s);
    SeqCardBound(members);
    assert S <= T;
    assert T == S + (T - S);
    assert |T| == |S| + |T - S|;
    if |s| == |members| {
      assert T - S == {};
      forall x | x in members ensures x in s {
        assert x in T && x !in T - S;
      }
    }
  }

  lemma {:induction false} DistinctCard(s: seq<nat>)
    requires Distinct(s)
    ensures |Elems(s)| == |s|
    decreases |s|
  {
    if s != [] {
      var init, last := s[..|s| - 1], s[|s| - 1];
      assert forall k :: 0 <= k < |init| ==> init[k] == s[k];
      assert Distinct(init);
      DistinctCard(init);
      assert Elems(s) == Elems(init) + {last} by {
        assert s == init + [last];
      }
      assert last !in Elems(init);
    }
  }

  lemma {:induction false} SeqCardBound(s: seq<nat>)
    ensures |Elems(s)| <= |s|
    decreases |s|
  {
    if s != [] {
      var init, last := s[..|s| - 1], s[|s| - 1];
      SeqCardBound(init);
      assert Elems(s) == Elems(init) + {last} by {
        assert s == init + [last];
      }
    }
  }

  /// Blocks ordered with no pending jumps into them are in topological order.
  lemma {:induction false} OrderIsTopological(jumps: seq<FlowJump>, members: seq<nat>, order: seq<nat>)
    requires OrderedSoFar(jumps, members, order)
    ensures Topological(jumps, order)
  {
    forall j, p, q | 0 <= j < |jumps| && 0 <= p < |order| && 0 <= q < |order| &&
      jumps[j].source == order[p] && jumps[j].target == order[q]
      ensures p < q
    {
      if p >= q {
        assert order[p] !in order[..q] by {
          forall k | 0 <= k < q ensures order[..q][k] != order[p] {
            assert order[..q][k] == order[k];
          }
        }
        PendingPositive(jumps, members, order[..q], j);
      }
    }
  }

  /// The in-degree count of isAcyclicSubgraph: for every block, the number
  /// of jumps into it from `src` and the inner blocks.
  method InitialDegrees(jumps: seq<FlowJump>, n: nat, members: seq<nat>) returns (deg: seq<int>)
    requires forall j :: 0 <= j < |jumps| ==> jumps[j].target < n
    ensures |deg| == n && forall v :: 0 <= v < n ==> deg[v] == Pending(jumps, members, [], v)
  {
    deg := seq(n, _ => 0);
    var m := 0;
    assert members[..0] == [];
    while m < |members|
      invariant 0 <= m <= |members| && |deg| == n
      invariant forall v :: 0 <= v < n ==> deg[v] == Pending(jumps, members[..m], [], v)
    {
      var before := deg;
      deg := CountSuccessors(jumps, members[m], deg);
      DegreesStep(jumps, n, members, m, before, deg);
      m := m + 1;
    }
    assert members[..m] == members;
  }

  /// Counting the jumps of member `m` extends the count to the first `m + 1` members.
  lemma {:induction false} DegreesStep(jumps: seq<FlowJump>, n: nat, members: seq<nat>, m: nat, before: seq<int>, after: seq<int>)
    requires m < |members| && |before| == n && |after| == n
    requires forall v :: 0 <= v < n ==> before[v] == Pending(jumps, members[..m], [], v)
    requires forall v :: 0 <= v < n ==> after[v] == before[v] + JumpCount(jumps, members[m], v)
    ensures forall v :: 0 <= v < n ==> after[v] == Pending(jumps, members[..m + 1], [], v)
  {
    forall v | 0 <= v < n ensures after[v] == Pending(jumps, members[..m + 1], [], v) {
      PendingSnoc(jumps, members, m, [], v);
    }
  }

  /// One round of the ordering loop: `b`, taken off the queue, is ordered and
  /// the in-degrees of its successors drop, queueing those that reach zero.
  method OrderBlock(jumps: seq<FlowJump>, ghost n: nat, ghost members: seq<nat>, dst: nat, deg: seq<int>,
                    queue: seq<nat>, ghost order: seq<nat>, b: nat)
    returns (deg': seq<int>, queue': seq<nat>)
    requires KahnInv(jumps, n, members, dst, deg, [b] + queue, order) && b != dst
    ensures KahnInv(jumps, n, members, dst, deg', queue', order + [b])
  {
    DrainStart(jumps, n, members, dst, deg, queue, order, b);
    deg', queue' := deg, queue;
    var succ := SuccJumps(jumps, b);
    var i := 0;
    while i < |succ|
      invariant DrainInv(jumps, n, members, dst, deg', queue', order, b, succ, i)
    {
      deg', queue' := DrainJump(jumps, n, members, dst, deg', queue', order, b, succ, i);
      i := i + 1;
    }
    DrainDone(jumps, n, members, dst, deg', queue', order, b, succ);
  }

  /// One pass of the inner loop of OrderBlock: the target of jump `succ[i]`
  /// loses one pending jump and is queued when none is left.
  method DrainJump(jumps: seq<FlowJump>, ghost n: nat, ghost members: seq<nat>, ghost dst: nat, deg: seq<int>,
                   queue: seq<nat>, ghost done: seq<nat>, ghost b: nat, succ: seq<nat>, i: nat)
    returns (deg': seq<int>, queue': seq<nat>)
    requires DrainInv(jumps, n, members, dst, deg, queue, done, b, succ, i) && i < |succ|
    ensures DrainInv(jumps, n, members, dst, deg', queue', done, b, succ, i + 1)
  {
    var t := jumps[succ[i]].target;
    deg' := deg[t := deg[t] - 1];
    queue' := queue;
    if deg'[t] == 0 {
      queue' := queue + [t];
    }
    DrainStep(jumps, n, members, dst, deg, queue, done, b, succ, i, deg', queue');
  }

  /// Some listing of exactly `src` and the inner blocks is topological.
  ghost predicate HasTopologicalOrder(jumps: seq<FlowJump>, src: nat, succs: seq<nat>)
  {
    exists t :: (forall v :: v in t <==> v == src || v in succs) && Topological(jumps, t)
  }

  /// Every inner block is entered by a jump from `src` or from an inner block.
  ghost predicate EnteredFromInside(jumps: seq<FlowJump>, src: nat, succs: seq<nat>)
  {
    forall k :: 0 <= k < |succs| ==>
      exists j :: 0 <= j < |jumps| && jumps[j].target == succs[k] && (jumps[j].source == src || jumps[j].source in succs)
  }

  /// isAcyclicSubgraph: Kahn's algorithm from `src` over the subgraph, with
  /// local in-degrees counting only jumps from `src` and the inner blocks;
  /// it stops when `dst` is taken off the queue. It succeeds when the order
  /// holds `src` and every inner block, and that order is topological.
  method IsAcyclicSubgraph(blocks: seq<FlowBlock>, jumps: seq<FlowJump>, src: nat, dst: nat, succs: seq<nat>)
    returns (ok: bool, order: seq<nat>)
    requires DanglingSubgraph(blocks, jumps, src, dst, succs)
    requires forall j :: 0 <= j < |jumps| ==> jumps[j].source < |blocks| && jumps[j].target < |blocks|
    ensures ok ==> |order| == |succs| + 1 && order[0] == src && Distinct(order) && Topological(jumps, order)
    ensures ok ==> forall v :: v in order <==> v == src || v in succs
    ensures ok ==> forall k :: 0 <= k < |order| ==> order[k] < |blocks|
    ensures HasTopologicalOrder(jumps, src, succs) && EnteredFromInside(jumps, src, succs) ==> ok
  {
    var members := [src] + succs;
    var deg := InitialDegrees(jumps, |blocks|, members);
    if deg[src] > 0 {
      if HasTopologicalOrder(jumps, src, succs) && EnteredFromInside(jumps, src, succs) {
        NothingEntersSrc(jumps, src, succs, members);
      }
      return false, [];
    }
    KahnStart(blocks, jumps, src, dst, succs, members, deg);
    var queue;
    deg, queue, order := KahnOrder(jumps, |blocks|, members, src, dst, deg);
    if HasTopologicalOrder(jumps, src, succs) && EnteredFromInside(jumps, src, succs) {
      KahnOrdersAll(blocks, jumps, src, dst, succs, members, deg, queue, order);
    }
    if |succs| + 1 != |order| {
      return false, order;
    }
    ok := true;
    OrderComplete(jumps, members, src, succs, order);
  }

  /// The ordering loop of isAcyclicSubgraph: Kahn's algorithm from `src`
  /// over the local in-degrees, until the queue empties or `dst` comes
  /// first in it.
  method KahnOrder(jumps: seq<FlowJump>, ghost n: nat, ghost members: seq<nat>, src: nat, dst: nat, deg0: seq<int>)
    returns (deg: seq<int>, queue: seq<nat>, order: seq<nat>)
    requires KahnInv(jumps, n, members, dst, deg0, [src], [])
    ensures KahnInv(jumps, n, members, dst, deg, queue, order)
    ensures order == [] ==> queue == [src]
    ensures order != [] ==> order[0] == src
    ensures queue == [] || queue[0] == dst
  {
    deg := deg0;
    queue := [src];
    order := [];
    while queue != []
      invariant KahnInv(jumps, n, members, dst, deg, queue, order)
      invariant order == [] ==> queue == [src]
      invariant order != [] ==> order[0] == src
      decreases |members| - |order|, |queue|
    {
      var b := queue[0];
      if b == dst {
        break;
      }
      ghost var before := queue;
      queue := queue[1..];
      assert before == [b] + queue;
      deg, queue := OrderBlock(jumps, n, members, dst, deg, queue, order, b);
      order := order + [b];
    }
  }

  /// A full-length order of distinct members is topological and lists exactly the members.
  lemma {:induction false} OrderComplete(jumps: seq<FlowJump>, members: seq<nat>, src: nat, succs: seq<nat>, order: seq<nat>)
    requires members == [src] + succs && |order| == |members|
    requires OrderedSoFar(jumps, members, order)
    ensures Distinct(order) && Topological(jumps, order)
    ensures forall v :: v in order <==> v == src || v in succs
  {
    OrderIsTopological(jumps, members, order);
    DistinctBound(order, members);
    assert forall x :: x in members <==> x == src || x in succs;
  }

  /// The ordering phase starts from `src` alone in the queue.
  lemma {:induction false} KahnStart(blocks: seq<FlowBlock>, jumps: seq<FlowJump>, src: nat, dst: nat, succs: seq<nat>,
                                     members: seq<nat>, deg: seq<int>)
    requires DanglingSubgraph(blocks, jumps, src, dst, succs) && members == [src] + succs
    requires forall j :: 0 <= j < |jumps| ==> jumps[j].source < |blocks| && jumps[j].target < |blocks|
    requires |deg| == |blocks| && (forall v :: 0 <= v < |blocks| ==> deg[v] == Pending(jumps, members, [], v))
    requires deg[src] == 0
    ensures KahnInv(jumps, |blocks|, members, dst, deg, [src], [])
  {
    SubgraphSetup(blocks, jumps, src, dst, succs, members);
  }

  /// `src` and the inner blocks, listed once each, are closed under jumps up to `dst`.
  lemma {:induction false} SubgraphSetup(blocks: seq<FlowBlock>, jumps: seq<FlowJump>, src: nat, dst: nat, succs: seq<nat>,
                                         members: seq<nat>)
    requires DanglingSubgraph(blocks, jumps, src, dst, succs) && members == [src] + succs
    requires forall j :: 0 <= j < |jumps| ==> jumps[j].source < |blocks| && jumps[j].target < |blocks|
    ensures KahnSetup(jumps, |blocks|, members, dst)
  {
    MembersListed(blocks, src, dst, succs, members);
    MembersClosed(jumps, src, dst, succs, members);
  }

  /// `src` followed by the inner blocks lists distinct blocks, none of them `dst`.
  lemma {:induction false} MembersListed(blocks: seq<FlowBlock>, src: nat, dst: nat, succs: seq<nat>, members: seq<nat>)
    requires members == [src] + succs && src < |blocks| && dst != src && Distinct(succs)
    requires forall k :: 0 <= k < |succs| ==> succs[k] < |blocks| && succs[k] != src && !(succs[k] == dst)
    ensures Distinct(members) && dst !in members
    ensures forall k :: 0 <= k < |members| ==> members[k] < |blocks|
  {
    assert forall k :: 0 < k < |members| ==> members[k] == succs[k - 1];
  }

  /// Jumps leaving a member end at a member or at `dst`.
  lemma {:induction false} MembersClosed(jumps: seq<FlowJump>, src: nat, dst: nat, succs: seq<nat>, members: seq<nat>)
    requires members == [src] + succs
    requires forall j :: 0 <= j < |jumps| && (jumps[j].source == src || jumps[j].source in succs) ==>
      jumps[j].target == src || jumps[j].target == dst || jumps[j].target in succs
    ensures forall j :: 0 <= j < |jumps| && jumps[j].source in members ==> jumps[j].target in members || jumps[j].target == dst
  {
    assert forall x :: x in members <==> x == src || x in succs;
  }


  /// Some jump from `done`'s complement in `members` enters `v` when its local in-degree is positive.
  lemma {:induction false} PendingWitness(jumps: seq<FlowJump>, members: seq<nat>, done: seq<nat>, v: nat)
    requires Pending(jumps, members, done, v) > 0
    ensures exists j :: 0 <= j < |jumps| && jumps[j].target == v && jumps[j].source in members && jumps[j].source !in done
    decreases |members|
  {
    var init, last := members[..|members| - 1], members[|members| - 1];
    assert forall x :: x in init ==> x in members;
    if Pending(jumps, init, done, v) > 0 {
      PendingWitness(jumps, init, done, v);
    } else {
      var succ := SuccJumps(jumps, last);
      SuccJumpsSpec(jumps, last);
      CountToWitness(jumps, succ, v);
      var k :| 0 <= k < |succ| && succ[k] < |jumps| && jumps[succ[k]].target == v;
      assert jumps[succ[k]].source == last;
    }
  }

  lemma {:induction false} CountToWitness(jumps: seq<FlowJump>, js: seq<nat>, v: nat)
    requires CountTo(jumps, js, v) > 0
    ensures exists k :: 0 <= k < |js| && js[k] < |jumps| && jumps[js[k]].target == v
    decreases |js|
  {
    var init := js[..|js| - 1];
    if CountTo(jumps, init, v) > 0 {
      CountToWitness(jumps, init, v);
      var k :| 0 <= k < |init| && init[k] < |jumps| && jumps[init[k]].target == v;
      assert js[k] == init[k];
    }
  }

  /// A member whose jump enters a block with no local in-degree left is ordered.
  lemma {:induction false} PendingZeroOrdered(jumps: seq<FlowJump>, members: seq<nat>, done: seq<nat>, j: nat)
    requires j < |jumps| && jumps[j].source in members
    requires Pending(jumps, members, done, jumps[j].target) == 0
    ensures jumps[j].source in done
  {
    if jumps[j].source !in done {
      PendingPositive(jumps, members, done, j);
    }
  }

  /// No local in-degree is left once every member entering `v` is ordered.
  lemma {:induction false} PendingZero(jumps: seq<FlowJump>, members: seq<nat>, done: seq<nat>, v: nat)
    requires forall j :: 0 <= j < |jumps| && jumps[j].target == v && jumps[j].source in members ==> jumps[j].source in done
    ensures Pending(jumps, members, done, v) == 0
  {
    if Pending(jumps, members, done, v) > 0 {
      PendingWitness(jumps, members, done, v);
    }
  }

  /// In a topological listing, the source of a jump into `t[q]` comes before it.
  lemma {:induction false} TopoBefore(jumps: seq<FlowJump>, t: seq<nat>, j: nat, q: nat)
    requires Topological(jumps, t) && j < |jumps| && q < |t| && jumps[j].target == t[q] && jumps[j].source in t
    ensures exists p :: 0 <= p < q && t[p] == jumps[j].source
  {
    var p :| 0 <= p < |t| && t[p] == jumps[j].source;
  }

  /// In a topological listing, the target of a jump from `t[q]` comes after it.
  lemma {:induction false} TopoAfter(jumps: seq<FlowJump>, t: seq<nat>, j: nat, q: nat)
    requires Topological(jumps, t) && j < |jumps| && q < |t| && jumps[j].source == t[q] && jumps[j].target in t
    ensures exists r :: q < r < |t| && t[r] == jumps[j].target
  {
    var r :| 0 <= r < |t| && t[r] == jumps[j].target;
  }

  /// In a topological listing of `src` and the inner blocks, an inner block
  /// is entered from a block listed before it.
  lemma {:induction false} EnteredBefore(jumps: seq<FlowJump>, src: nat, succs: seq<nat>, t: seq<nat>, q: nat)
    requires (forall v :: v in t <==> v == src || v in succs) && Topological(jumps, t)
    requires EnteredFromInside(jumps, src, succs) && q < |t|
    ensures t[q] != src ==> exists p :: 0 <= p < q && t[p] in t
  {
    if t[q] != src {
      assert t[q] in t;
      var k :| 0 <= k < |succs| && succs[k] == t[q];
      var j :| 0 <= j < |jumps| && jumps[j].target == succs[k] && (jumps[j].source == src || jumps[j].source in succs);
      TopoBefore(jumps, t, j, q);
    }
  }

  /// With a topological listing, `src` comes first in it when every inner
  /// block is entered from inside; so no jump of the subgraph enters `src`.
  lemma {:induction false} NothingEntersSrc(jumps: seq<FlowJump>, src: nat, succs: seq<nat>, members: seq<nat>)
    requires members == [src] + succs
    requires HasTopologicalOrder(jumps, src, succs) && EnteredFromInside(jumps, src, succs)
    ensures Pending(jumps, members, [], src) == 0
  {
    var t :| (forall v :: v in t <==> v == src || v in succs) && Topological(jumps, t);
    assert src in t;
    EnteredBefore(jumps, src, succs, t, 0);
    forall j | 0 <= j < |jumps| && jumps[j].target == src
      ensures jumps[j].source !in members
    {
      FirstNotEntered(jumps, t, j);
    }
    PendingZero(jumps, members, [], src);
  }

  /// No jump of a topological listing enters its first block from a block of it.
  lemma FirstNotEntered(jumps: seq<FlowJump>, t: seq<nat>, j: nat)
    requires Topological(jumps, t) && j < |jumps| && t != [] && jumps[j].target == t[0]
    ensures jumps[j].source !in t
  {
  }

  /// When the queue runs dry, the first `q` blocks of a topological listing
  /// are ordered.
  lemma {:induction false} EmptyQueuePrefix(jumps: seq<FlowJump>, n: nat, src: nat, succs: seq<nat>,
                                            members: seq<nat>, deg: seq<int>, order: seq<nat>, t: seq<nat>, q: nat)
    requires members == [src] + succs && (forall v :: v in members ==> v < n)
    requires |deg| == n && (forall v :: 0 <= v < n ==> deg[v] == Pending(jumps, members, order, v))
    requires Fed(jumps, deg, [], order) && order != [] && order[0] == src
    requires (forall v :: v in t <==> v == src || v in succs) && Topological(jumps, t)
    requires EnteredFromInside(jumps, src, succs) && q <= |t|
    ensures forall p :: 0 <= p < q ==> t[p] in order
    decreases q
  {
    if q > 0 {
      EmptyQueuePrefix(jumps, n, src, succs, members, deg, order, t, q - 1);
      EmptyQueueStep(jumps, n, src, succs, members, deg, order, t, q - 1);
    }
  }

  /// A block of a topological listing whose predecessors in it are all
  /// ordered is ordered itself: every member entering it is ordered, so it
  /// was queued.
  lemma {:induction false} EmptyQueueStep(jumps: seq<FlowJump>, n: nat, src: nat, succs: seq<nat>,
                                          members: seq<nat>, deg: seq<int>, order: seq<nat>, t: seq<nat>, q: nat)
    requires members == [src] + succs && (forall v :: v in members ==> v < n)
    requires |deg| == n && (forall v :: 0 <= v < n ==> deg[v] == Pending(jumps, members, order, v))
    requires Fed(jumps, deg, [], order) && order != [] && order[0] == src
    requires (forall v :: v in t <==> v == src || v in succs) && Topological(jumps, t)
    requires EnteredFromInside(jumps, src, succs) && q < |t|
    requires forall p :: 0 <= p < q ==> t[p] in order
    ensures t[q] in order
  {
    var w := t[q];
    assert w in t;
    if w != src {
      assert w in succs;
      var k :| 0 <= k < |succs| && succs[k] == w;
      var j :| 0 <= j < |jumps| && jumps[j].target == w && (jumps[j].source == src || jumps[j].source in succs);
      forall j' | 0 <= j' < |jumps| && jumps[j'].target == w && jumps[j'].source in members
        ensures jumps[j'].source in order
      {
        TopoBefore(jumps, t, j', q);
      }
      PendingZero(jumps, members, order, w);
      assert w in members;
      assert w < n && deg[w] == 0;
      assert jumps[j].source in members;
      assert jumps[j].source in order;
      FedUse(jumps, deg, order, j);
    } else {
      assert order[0] == w;
    }
  }

  /// Kahn's algorithm, whether the queue ran dry or it stopped at `dst`,
  /// ordered every member when there is a topological listing of them and
  /// every inner block is entered from inside.
  lemma {:induction false} KahnOrdersAll(blocks: seq<FlowBlock>, jumps: seq<FlowJump>, src: nat, dst: nat, succs: seq<nat>,
                                         members: seq<nat>, deg: seq<int>, queue: seq<nat>, order: seq<nat>)
    requires DanglingSubgraph(blocks, jumps, src, dst, succs) && members == [src] + succs
    requires KahnInv(jumps, |blocks|, members, dst, deg, queue, order)
    requires order == [] ==> queue == [src]
    requires order != [] ==> order[0] == src
    requires queue == [] || queue[0] == dst
    requires HasTopologicalOrder(jumps, src, succs) && EnteredFromInside(jumps, src, succs)
    ensures |order| == |succs| + 1
  {
    if queue == [] {
      EmptyQueueOrdersAll(jumps, |blocks|, src, dst, succs, members, deg, order);
    } else {
      StopAtDstOrdersAll(blocks, jumps, src, dst, succs, members, deg, queue, order);
    }
    assert Distinct(members) && |order| <= |members|;
    DistinctBound(members, order);
  }

  /// With the queue empty, Fed says every block entered from an ordered block
  /// with no pending jumps is ordered.
  lemma {:induction false} FedUse(jumps: seq<FlowJump>, deg: seq<int>, order: seq<nat>, j: nat)
    requires Fed(jumps, deg, [], order) && j < |jumps| && jumps[j].source in order
    requires jumps[j].target < |deg| && deg[jumps[j].target] == 0
    ensures jumps[j].target in order
  {
  }

  /// When the queue runs dry, every member is ordered.
  lemma {:induction false} EmptyQueueOrdersAll(jumps: seq<FlowJump>, n: nat, src: nat, dst: nat, succs: seq<nat>,
                                               members: seq<nat>, deg: seq<int>, order: seq<nat>)
    requires members == [src] + succs
    requires KahnInv(jumps, n, members, dst, deg, [], order) && order != [] && order[0] == src
    requires HasTopologicalOrder(jumps, src, succs) && EnteredFromInside(jumps, src, succs)
    ensures forall v :: v in members ==> v in order
  {
    var t :| (forall v :: v in t <==> v == src || v in succs) && Topological(jumps, t);
    assert forall v :: v in members ==> v < n;
    EmptyQueuePrefix(jumps, n, src, succs, members, deg, order, t, |t|);
    forall v | v in members ensures v in order {
      assert v in t;
    }
  }

  /// Kahn's algorithm stopped at `dst` on a subgraph whose members leave only
  /// to members or `dst`, with `t` a topological listing of the members.
  ghost predicate StoppedAtDst(jumps: seq<FlowJump>, src: nat, dst: nat, succs: seq<nat>,
                               members: seq<nat>, order: seq<nat>, t: seq<nat>)
  {
    members == [src] + succs && (forall k :: 0 <= k < |succs| ==> !IsExit(jumps, succs[k]))
    && (forall j :: 0 <= j < |jumps| && jumps[j].source in members ==> jumps[j].target in members || jumps[j].target == dst)
    && OrderedSoFar(jumps, members, order) && Pending(jumps, members, order, dst) == 0
    && order != [] && order[0] == src
    && (forall v :: v in t <==> v == src || v in succs) && Topological(jumps, t)
  }

  /// When Kahn's algorithm stops at `dst`, the blocks of a topological listing
  /// from position `q` on are ordered.
  lemma {:induction false} StopAtDstSuffix(jumps: seq<FlowJump>, src: nat, dst: nat, succs: seq<nat>,
                                           members: seq<nat>, order: seq<nat>, t: seq<nat>, q: nat)
    requires StoppedAtDst(jumps, src, dst, succs, members, order, t) && q <= |t|
    ensures forall p :: q <= p < |t| ==> t[p] in order
  {
    forall p | q <= p < |t| && (forall p' :: p < p' < |t| ==> t[p'] in order)
      ensures t[p] in order
    {
      StopAtDstStep(jumps, src, dst, succs, members, order, t, p);
    }
    SuffixFromStep(t, order, q);
  }

  /// Backward induction over a listing: if each position is in `order` as
  /// soon as all later ones are, then every position from `q` on is.
  lemma {:induction false} SuffixFromStep(t: seq<nat>, order: seq<nat>, q: nat)
    requires q <= |t|
    requires forall p :: q <= p < |t| && (forall p' :: p < p' < |t| ==> t[p'] in order) ==> t[p] in order
    ensures forall p :: q <= p < |t| ==> t[p] in order
    decreases |t| - q
  {
    if q < |t| {
      SuffixFromStep(t, order, q + 1);
    }
  }

  /// A block of a topological listing whose successors in it are all ordered
  /// is ordered itself: it has a jump, to `dst` or to an ordered member, that
  /// would otherwise still have been pending.
  lemma {:induction false} StopAtDstStep(jumps: seq<FlowJump>, src: nat, dst: nat, succs: seq<nat>,
                                         members: seq<nat>, order: seq<nat>, t: seq<nat>, q: nat)
    requires StoppedAtDst(jumps, src, dst, succs, members, order, t) && q < |t|
    requires forall p :: q < p < |t| ==> t[p] in order
    ensures t[q] in order
  {
    var w := t[q];
    assert w in t;
    if w != src {
      assert w in succs;
      var k :| 0 <= k < |succs| && succs[k] == w;
      assert !IsExit(jumps, w);
      var j :| 0 <= j < |jumps| && jumps[j].source == w;
      var x := jumps[j].target;
      assert w in members;
      if x == dst {
        PendingZeroOrdered(jumps, members, order, j);
      } else {
        assert x in t;
        TopoAfter(jumps, t, j, q);
        var m :| 0 <= m < |order| && order[m] == x;
        PendingZeroOrdered(jumps, members, order[..m], j);
        assert w in order[..m];
      }
    } else {
      assert order[0] == w;
    }
  }

  /// When Kahn's algorithm stops at `dst`, every member is ordered.
  lemma {:induction false} StopAtDstOrdersAll(blocks: seq<FlowBlock>, jumps: seq<FlowJump>, src: nat, dst: nat, succs: seq<nat>,
                                              members: seq<nat>, deg: seq<int>, queue: seq<nat>, order: seq<nat>)
    requires DanglingSubgraph(blocks, jumps, src, dst, succs) && members == [src] + succs
    requires KahnInv(jumps, |blocks|, members, dst, deg, queue, order) && order != [] && order[0] == src
    requires queue != [] && queue[0] == dst
    requires HasTopologicalOrder(jumps, src, succs)
    ensures forall v :: v in members ==> v in order
  {
    var t :| (forall v :: v in t <==> v == src || v in succs) && Topological(jumps, t);
    assert queue[0] in queue;
    assert deg[dst] == 0 && dst < |blocks|;
    StopAtDstSuffix(jumps, src, dst, succs, members, order, t, 0);
    forall v | v in members ensures v in order {
      assert v in t;
    }
  }
}
