// CFGChangeLog: after each pass over a function it is asked to watch, take a
// snapshot of the function's control-flow graph (one node per block, with the
// block's profile count and its outgoing edges) and report how it differs
// from the snapshot taken after the previous pass.
module CfgChangeLog {
  import opened Util

  /// A block is identified by its address.
  type Ptr = nat

  /// An outgoing edge: the destination block, the branch weight (-1 when
  /// the terminator has none) and the branch probability in percent. The
  /// percentage is a floating-point value the logger only compares for
  /// equality, so it is kept as an opaque integer code.
  datatype OutgoingEdge = OutgoingEdge(dest: Ptr, weight: int, percent: int)

  /// A node of the snapshot: the block, its printed name, its profile
  /// count if any, and its outgoing edges in successor order.
  datatype Node = Node(ptr: Ptr, name: string, profCount: Option<nat>, outgoings: seq<OutgoingEdge>)

  /// A snapshot: the node set hashes and compares nodes by block address
  /// only, so it holds at most one node per block; it is kept as a map
  /// from the address to the node.
  type Cfg = c: map<Ptr, Node> | forall p :: p in c ==> c[p].ptr == p

  /// Two nodes are identical when they are for the same block, both or
  /// neither have a profile count and the counts agree, and their outgoing
  /// edges agree one by one.
  predicate Identical(a: Node, b: Node)
  {
    a.ptr == b.ptr &&
    (a.profCount.Some? <==> b.profCount.Some?) &&
    (a.profCount.Some? ==> a.profCount.value == b.profCount.value) &&
    |a.outgoings| == |b.outgoings| &&
    forall i :: 0 <= i < |a.outgoings| ==> a.outgoings[i] == b.outgoings[i]
  }

  /// The comparison, edge by edge.
  method IsIdentical(a: Node, b: Node) returns (r: bool)
    ensures r <==> Identical(a, b)
  {
    if a.ptr != b.ptr {
      return false;
    }
    if a.profCount.Some? && b.profCount.Some? {
      if a.profCount.value != b.profCount.value {
        return false;
      }
    } else if a.profCount.Some? || b.profCount.Some? {
      return false;
    }
    if |a.outgoings| != |b.outgoings| {
      return false;
    }
    var i := 0;
    while i < |a.outgoings|
      invariant i <= |a.outgoings|
      invariant forall j :: 0 <= j < i ==> a.outgoings[j] == b.outgoings[j]
    {
      if a.outgoings[i] != b.outgoings[i] {
        return false;
      }
      i := i + 1;
    }
    return true;
  }

  /// Identical nodes differ in their printed name at most: the comparison
  /// looks at everything else.
  lemma IdenticalIgnoresOnlyName(a: Node, b: Node)
    ensures Identical(a, b) <==> a.(name := b.name) == b
  {
    if Identical(a, b) {
      assert a.outgoings == b.outgoings;
    }
  }

  /// Identity is an equivalence.
  lemma IdenticalEquivalence(a: Node, b: Node, c: Node)
    ensures Identical(a, a)
    ensures Identical(a, b) ==> Identical(b, a)
    ensures Identical(a, b) && Identical(b, c) ==> Identical(a, c)
  {
    IdenticalIgnoresOnlyName(a, a);
    IdenticalIgnoresOnlyName(a, b);
    IdenticalIgnoresOnlyName(b, a);
    IdenticalIgnoresOnlyName(b, c);
    IdenticalIgnoresOnlyName(a, c);
  }

  /// The snapshot after inserting `nodes` in order into the node set: a
  /// node whose block is already present is not inserted.
  function NodesCfg(nodes: seq<Node>): Cfg
  {
    if nodes == [] then map[]
    else
      var c := NodesCfg(nodes[..|nodes| - 1]);
      var n := nodes[|nodes| - 1];
      if n.ptr in c then c else c[n.ptr := n]
  }

  /// The index of the first node for block `p`.
  predicate FirstFor(nodes: seq<Node>, p: Ptr, i: int)
  {
    0 <= i < |nodes| && nodes[i].ptr == p && forall j :: 0 <= j < i ==> nodes[j].ptr != p
  }

  /// The snapshot has a node exactly for the blocks among `nodes`.
  lemma {:induction false} NodesCfgKeys(nodes: seq<Node>)
    ensures forall p :: p in NodesCfg(nodes) <==> exists i :: 0 <= i < |nodes| && nodes[i].ptr == p
  {
    if nodes != [] {
      var init := nodes[..|nodes| - 1];
      NodesCfgKeys(init);
      forall p | exists i :: 0 <= i < |nodes| && nodes[i].ptr == p
        ensures p in NodesCfg(nodes)
      {
        var i :| 0 <= i < |nodes| && nodes[i].ptr == p;
        if i < |nodes| - 1 {
          assert init[i].ptr == p;
        }
      }
      forall p | p in NodesCfg(nodes)
        ensures exists i :: 0 <= i < |nodes| && nodes[i].ptr == p
      {
        if p in NodesCfg(init) {
          var i :| 0 <= i < |init| && init[i].ptr == p;
          assert nodes[i].ptr == p;
        } else {
          assert nodes[|nodes| - 1].ptr == p;
        }
      }
    }
  }

  /// The snapshot's node for a block is the first one given for it.
  lemma {:induction false} NodesCfgFirst(nodes: seq<Node>, p: Ptr)
    requires p in NodesCfg(nodes)
    ensures exists i :: FirstFor(nodes, p, i) && NodesCfg(nodes)[p] == nodes[i]
  {
    var last := |nodes| - 1;
    var init := nodes[..last];
    var c := NodesCfg(init);
    if p in c {
      assert NodesCfg(nodes)[p] == c[p];
      NodesCfgFirst(init, p);
      var i :| FirstFor(init, p, i) && c[p] == init[i];
      assert forall j :: 0 <= j <= i ==> nodes[j] == init[j];
      assert FirstFor(nodes, p, i);
    } else {
      assert nodes[last].ptr == p && NodesCfg(nodes)[p] == nodes[last];
      NodesCfgKeys(init);
      forall j | 0 <= j < last
        ensures nodes[j].ptr != p
      {
        assert nodes[j] == init[j];
      }
      assert FirstFor(nodes, p, last);
    }
  }

  /// Filling the node set, one block after another.
  method InsertNodes(nodes: seq<Node>) returns (c: Cfg)
    ensures c == NodesCfg(nodes)
  {
    c := map[];
    for i := 0 to |nodes|
      invariant c == NodesCfg(nodes[..i])
    {
      assert nodes[..i + 1][..i] == nodes[..i];
      if nodes[i].ptr !in c {
        c := c[nodes[i].ptr := nodes[i]];
      }
    }
    assert nodes[..|nodes|] == nodes;
  }

  /// The lines of the change log.
  datatype LogLine =
    | Changed(before: Node, after: Node)
    | Deleted(node: Node)
    | Created
    | Inserted(node: Node)
    | NoChange

  /// The line for a node of the previous snapshot, if any: changed when
  /// the new snapshot's node for its block is not identical, deleted when
  /// there is none.
  function BeforeLine(n: Node, after: Cfg): Option<LogLine>
  {
    if n.ptr in after then
      if Identical(n, after[n.ptr]) then None else Some(Changed(n, after[n.ptr]))
    else Some(Deleted(n))
  }

  /// The lines for the previous snapshot's blocks among `keys`.
  function BeforeLines(before: Cfg, after: Cfg, keys: set<Ptr>): set<LogLine>
  {
    set p | p in keys && p in before && BeforeLine(before[p], after).Some? :: BeforeLine(before[p], after).value
  }

  /// The lines for the new snapshot's blocks among `keys`: those absent
  /// from the previous snapshot, or all of them when there is none.
  function AfterLines(before: Option<Cfg>, after: Cfg, keys: set<Ptr>): set<LogLine>
  {
    set p | p in keys && p in after && (before.None? || p !in before.value) :: Inserted(after[p])
  }

  lemma BeforeLinesAdd(before: Cfg, after: Cfg, keys: set<Ptr>, p: Ptr)
    requires p in before && p !in keys
    ensures BeforeLines(before, after, keys + {p}) ==
            BeforeLines(before, after, keys) + (if BeforeLine(before[p], after).Some? then {BeforeLine(before[p], after).value} else {})
  {
  }

  lemma AfterLinesAdd(before: Option<Cfg>, after: Cfg, keys: set<Ptr>, p: Ptr)
    requires p in after && p !in keys
    ensures AfterLines(before, after, keys + {p}) ==
            AfterLines(before, after, keys) + (if before.None? || p !in before.value then {Inserted(after[p])} else {})
  {
  }

  /// The first loop: each node of the previous snapshot, in the set's own
  /// order.
  method LogBefore(before: Cfg, after: Cfg) returns (lines: seq<LogLine>)
    ensures forall l :: l in lines <==> l in BeforeLines(before, after, before.Keys)
  {
    lines := [];
    var todo := before.Keys;
    while todo != {}
      invariant todo <= before.Keys
      invariant forall l :: l in lines <==> l in BeforeLines(before, after, before.Keys - todo)
      decreases |todo|
    {
      var p :| p in todo;
      BeforeLinesAdd(before, after, before.Keys - todo, p);
      assert before.Keys - todo + {p} == before.Keys - (todo - {p});
      var n := before[p];
      if n.ptr in after {
        var same := IsIdentical(n, after[n.ptr]);
        if !same {
          lines := lines + [Changed(n, after[n.ptr])];
        }
      } else {
        lines := lines + [Deleted(n)];
      }
      todo := todo - {p};
    }
  }

  /// The second loop: each node of the new snapshot, in the set's own
  /// order.
  method LogAfter(before: Option<Cfg>, after: Cfg) returns (lines: seq<LogLine>)
    ensures forall l :: l in lines <==> l in AfterLines(before, after, after.Keys)
  {
    lines := [];
    var todo := after.Keys;
    while todo != {}
      invariant todo <= after.Keys
      invariant forall l :: l in lines <==> l in AfterLines(before, after, after.Keys - todo)
      decreases |todo|
    {
      var p :| p in todo;
      AfterLinesAdd(before, after, after.Keys - todo, p);
      assert after.Keys - todo + {p} == after.Keys - (todo - {p});
      if before.None? || p !in before.value {
        lines := lines + [Inserted(after[p])];
      }
      todo := todo - {p};
    }
  }

  /// The lines describing how two snapshots differ.
  predicate ChangeLine(l: LogLine)
  {
    l.Changed? || l.Deleted? || l.Inserted?
  }

  /// The change log between the previous snapshot, if any, and the new
  /// one: "cfg created" when there is no previous snapshot, the changed and
  /// deleted nodes of the previous one, the inserted nodes of the new one,
  /// and "no change" last when none of these was written.
  method PrintChangeLog(before: Option<Cfg>, after: Cfg) returns (lines: seq<LogLine>)
    ensures Created in lines <==> before.None?
    ensures forall n, m :: Changed(n, m) in lines <==>
      before.Some? && n.ptr in before.value && before.value[n.ptr] == n &&
      n.ptr in after && after[n.ptr] == m && !Identical(n, m)
    ensures forall n :: Deleted(n) in lines <==>
      before.Some? && n.ptr in before.value && before.value[n.ptr] == n && n.ptr !in after
    ensures forall n :: Inserted(n) in lines <==>
      n.ptr in after && after[n.ptr] == n && (before.None? || n.ptr !in before.value)
    ensures NoChange in lines <==> forall l :: l in lines ==> !ChangeLine(l)
    ensures NoChange in lines ==> lines[|lines| - 1] == NoChange
    ensures before == Some(after) ==> lines == [NoChange]
  {
    var first: seq<LogLine> := [];
    if before.Some? {
      first := LogBefore(before.value, after);
    } else {
      first := [Created];
    }
    var second := LogAfter(before, after);
    lines := first + second;
    var changed := exists l :: l in lines && ChangeLine(l);
    assert changed <==> (first != [] && before.Some?) || second != [] by {
      ChangedWhenLines(before, after, first, second);
    }
    if before == Some(after) {
      SelfLinesEmpty(after);
    }
    if !changed {
      lines := lines + [NoChange];
    }
    PrintChangeLogLines(before, after, first, second);
  }

  /// In the source the flag is set exactly when a changed, deleted or
  /// inserted line is written.
  lemma ChangedWhenLines(before: Option<Cfg>, after: Cfg, first: seq<LogLine>, second: seq<LogLine>)
    requires before.Some? ==> forall l :: l in first <==> l in BeforeLines(before.value, after, before.value.Keys)
    requires before.None? ==> first == [Created]
    requires forall l :: l in second <==> l in AfterLines(before, after, after.Keys)
    ensures (exists l :: l in first + second && ChangeLine(l)) <==> (first != [] && before.Some?) || second != []
  {
    if before.Some? && first != [] {
      assert first[0] in first;
      assert ChangeLine(first[0]);
      assert first[0] in first + second;
    } else if second != [] {
      assert second[0] in second;
      assert second[0] in first + second;
    }
  }

  /// The membership facts of the log, line kind by line kind.
  lemma PrintChangeLogLines(before: Option<Cfg>, after: Cfg, first: seq<LogLine>, second: seq<LogLine>)
    requires before.Some? ==> forall l :: l in first <==> l in BeforeLines(before.value, after, before.value.Keys)
    requires before.None? ==> first == [Created]
    requires forall l :: l in second <==> l in AfterLines(before, after, after.Keys)
    ensures Created in first + second <==> before.None?
    ensures forall n, m :: Changed(n, m) in first + second <==>
      before.Some? && n.ptr in before.value && before.value[n.ptr] == n &&
      n.ptr in after && after[n.ptr] == m && !Identical(n, m)
    ensures forall n :: Deleted(n) in first + second <==>
      before.Some? && n.ptr in before.value && before.value[n.ptr] == n && n.ptr !in after
    ensures forall n :: Inserted(n) in first + second <==>
      n.ptr in after && after[n.ptr] == n && (before.None? || n.ptr !in before.value)
    ensures NoChange !in first + second
  {
    forall n, m
      ensures Changed(n, m) in first + second <==>
        before.Some? && n.ptr in before.value && before.value[n.ptr] == n &&
        n.ptr in after && after[n.ptr] == m && !Identical(n, m)
    {
      if before.Some? && n.ptr in before.value && before.value[n.ptr] == n && n.ptr in after && after[n.ptr] == m && !Identical(n, m) {
        assert BeforeLine(before.value[n.ptr], after) == Some(Changed(n, m));
      }
    }
    forall n
      ensures Deleted(n) in first + second <==>
        before.Some? && n.ptr in before.value && before.value[n.ptr] == n && n.ptr !in after
    {
      if before.Some? && n.ptr in before.value && before.value[n.ptr] == n && n.ptr !in after {
        assert BeforeLine(before.value[n.ptr], after) == Some(Deleted(n));
      }
    }
    forall n
      ensures Inserted(n) in first + second <==>
        n.ptr in after && after[n.ptr] == n && (before.None? || n.ptr !in before.value)
    {
      if n.ptr in after && after[n.ptr] == n && (before.None? || n.ptr !in before.value) {
        assert Inserted(after[n.ptr]) in AfterLines(before, after, after.Keys);
      }
    }
  }

  /// A snapshot compared with itself has no changed, deleted or inserted
  /// node: every node is identical to itself.
  lemma SelfLinesEmpty(c: Cfg)
    ensures BeforeLines(c, c, c.Keys) == {}
    ensures AfterLines(Some(c), c, c.Keys) == {}
  {
    forall p | p in c
      ensures BeforeLine(c[p], c).None?
    {
      IdenticalEquivalence(c[p], c[p], c[p]);
    }
  }

  /// The configured target list selects a function when it names it or
  /// holds the wildcard "*".
  predicate IsLoggingTarget(funcs: seq<string>, name: string)
  {
    "*" in funcs || name in funcs
  }

  /// The longest name in the list.
  function MaxLength(funcs: seq<string>): (r: nat)
    ensures forall s :: s in funcs ==> |s| <= r
  {
    if funcs == [] then 0 else Max(|funcs[0]|, MaxLength(funcs[1..]))
  }

  /// Every function is a logging target exactly when the list holds the
  /// wildcard: a finite list of names misses some name.
  lemma EveryNameTargetIffWildcard(funcs: seq<string>)
    ensures (forall name :: IsLoggingTarget(funcs, name)) <==> "*" in funcs
  {
    if "*" !in funcs {
      var name := seq(MaxLength(funcs) + 1, _ => 'x');
      assert name !in funcs;
      assert !IsLoggingTarget(funcs, name);
    }
  }

  /// Pass-manager and adaptor passes are not logged.
  predicate IgnoredPass(passId: string)
  {
    StartsWith(passId, "PassManager<") || Contains(passId, "PassAdaptor<")
  }

  /// A function of the module, with whether it is only a declaration.
  datatype Func = Func(name: string, isDeclaration: bool)

  /// The IR unit a pass ran on.
  datatype IRUnit =
    | ModuleUnit(functions: seq<Func>)
    | FunctionUnit(fn: Func)
    | SccUnit(functions: seq<Func>)
    | LoopUnit(fn: Func, header: string)

  /// A request to log a function's snapshot under a banner.
  datatype LogCall = LogCall(fname: string, banner: string)

  function BannerPrefix(passId: string, f: Func): string
  {
    "*** CFGChangeLog After " + passId + " (function: " + f.name + ")"
  }

  /// A function is logged when it has a body and is a logging target.
  predicate Logged(funcs: seq<string>, f: Func)
  {
    !f.isDeclaration && IsLoggingTarget(funcs, f.name)
  }

  /// The functions of the unit, in order.
  function UnitFunctions(ir: IRUnit): seq<Func>
  {
    match ir
    case ModuleUnit(fs) => fs
    case FunctionUnit(f) => [f]
    case SccUnit(fs) => fs
    case LoopUnit(f, _) => [f]
  }

  /// The banner for function `f` of the unit.
  function Banner(passId: string, ir: IRUnit, f: Func): string
  {
    if ir.LoopUnit? then BannerPrefix(passId, f) + " (loop: " + ir.header + ")" else BannerPrefix(passId, f)
  }

  /// The log requests for the logged functions among `fs`, in order.
  function LogCalls(funcs: seq<string>, passId: string, ir: IRUnit, fs: seq<Func>): seq<LogCall>
  {
    if fs == [] then []
    else
      LogCalls(funcs, passId, ir, fs[..|fs| - 1]) +
      (if Logged(funcs, fs[|fs| - 1]) then [LogCall(fs[|fs| - 1].name, Banner(passId, ir, fs[|fs| - 1]))] else [])
  }

  /// The requests name exactly the logged functions of `fs`, each with
  /// its banner.
  lemma {:induction false} LogCallsMembers(funcs: seq<string>, passId: string, ir: IRUnit, fs: seq<Func>)
    ensures forall c :: c in LogCalls(funcs, passId, ir, fs) <==>
      exists f :: f in fs && Logged(funcs, f) && c == LogCall(f.name, Banner(passId, ir, f))
  {
    if fs != [] {
      var init := fs[..|fs| - 1];
      LogCallsMembers(funcs, passId, ir, init);
      forall c ensures c in LogCalls(funcs, passId, ir, fs) <==>
        exists f :: f in fs && Logged(funcs, f) && c == LogCall(f.name, Banner(passId, ir, f))
      {
        if exists f :: f in fs && Logged(funcs, f) && c == LogCall(f.name, Banner(passId, ir, f)) {
          var f :| f in fs && Logged(funcs, f) && c == LogCall(f.name, Banner(passId, ir, f));
          if f in init {
            assert c in LogCalls(funcs, passId, ir, init);
          }
        }
        if c in LogCalls(funcs, passId, ir, init) {
          var f :| f in init && Logged(funcs, f) && c == LogCall(f.name, Banner(passId, ir, f));
          assert f in fs;
        }
      }
    }
  }

  /// The callback run after each pass: nothing for pass managers and
  /// adaptors; otherwise a log request for each function of the unit that
  /// has a body and is a logging target, in order.
  method RunAfterPass(funcs: seq<string>, passId: string, ir: IRUnit) returns (calls: seq<LogCall>)
    ensures IgnoredPass(passId) ==> calls == []
    ensures !IgnoredPass(passId) ==> calls == LogCalls(funcs, passId, ir, UnitFunctions(ir))
  {
    calls := [];
    if IgnoredPass(passId) {
      return;
    }
    var fs := UnitFunctions(ir);
    for i := 0 to |fs|
      invariant calls == LogCalls(funcs, passId, ir, fs[..i])
    {
      assert fs[..i + 1][..i] == fs[..i];
      if !fs[i].isDeclaration && IsLoggingTarget(funcs, fs[i].name) {
        calls := calls + [LogCall(fs[i].name, Banner(passId, ir, fs[i]))];
      }
    }
    assert fs[..|fs|] == fs;
  }
}
