// AutoFDO's profile of one function (Symbol) and of one source position
// (ProfileInfo). A symbol owns the symbols of the functions inlined into it,
// keyed by callsite, so a profile is a tree; the tree is modelled as a value.
module AutofdoSymbol {
  import opened Util

  /// ProfileInfo: the sampled count of a source position, its instruction
  /// count and the counts of the indirect-call targets seen there.
  datatype ProfileInfo = ProfileInfo(count: nat, numInst: nat, targetMap: map<string, nat>)

  const NoInfo := ProfileInfo(0, 0, map[])

  function TargetAt(m: map<string, nat>, name: string): nat
  {
    if name in m then m[name] else 0
  }

  /// ProfileInfo::operator+=: for each of `b`'s targets, the receiver's
  /// entry (created at 0 when missing) grows by `b`'s count.
  function Plus(a: ProfileInfo, b: ProfileInfo): (r: ProfileInfo)
    ensures r.count == a.count + b.count && r.numInst == a.numInst + b.numInst
    ensures r.targetMap.Keys == a.targetMap.Keys + b.targetMap.Keys
    ensures forall t :: TargetAt(r.targetMap, t) == TargetAt(a.targetMap, t) + TargetAt(b.targetMap, t)
  {
    ProfileInfo(a.count + b.count, a.numInst + b.numInst,
                map t | t in a.targetMap.Keys + b.targetMap.Keys ::
                  if t in b.targetMap then TargetAt(a.targetMap, t) + b.targetMap[t] else a.targetMap[t])
  }

  /// Adding an empty ProfileInfo changes nothing, on either side.
  lemma PlusIdentity(a: ProfileInfo)
    ensures Plus(a, NoInfo) == a && Plus(NoInfo, a) == a
  {
    assert Plus(a, NoInfo).targetMap == a.targetMap;
    assert Plus(NoInfo, a).targetMap == a.targetMap;
  }

  /// Accumulation order does not matter.
  lemma PlusCommutes(a: ProfileInfo, b: ProfileInfo)
    ensures Plus(a, b) == Plus(b, a)
  {
    var l, r := Plus(a, b), Plus(b, a);
    forall t | t in l.targetMap ensures l.targetMap[t] == r.targetMap[t] {
      assert TargetAt(l.targetMap, t) == TargetAt(r.targetMap, t);
    }
    assert l.targetMap == r.targetMap;
  }

  lemma PlusAssociative(a: ProfileInfo, b: ProfileInfo, c: ProfileInfo)
    ensures Plus(Plus(a, b), c) == Plus(a, Plus(b, c))
  {
    var l, r := Plus(Plus(a, b), c), Plus(a, Plus(b, c));
    forall t | t in l.targetMap ensures l.targetMap[t] == r.targetMap[t] {
      assert TargetAt(l.targetMap, t) == TargetAt(r.targetMap, t);
    }
    assert l.targetMap == r.targetMap;
  }

  /// One (target, count) pair of a call-target map.
  datatype TargetCount = TargetCount(name: string, count: nat)

  /// TargetCountCompare: larger counts first, ties broken by the larger name.
  predicate TargetBefore(a: TargetCount, b: TargetCount)
  {
    if a.count != b.count then a.count > b.count else StrLess(b.name, a.name)
  }

  predicate SortedTargets(s: seq<TargetCount>)
  {
    forall i, j :: 0 <= i < j < |s| ==> TargetBefore(s[i], s[j])
  }

  lemma TargetBeforeTransitive(a: TargetCount, b: TargetCount, c: TargetCount)
    requires TargetBefore(a, b) && TargetBefore(b, c)
    ensures TargetBefore(a, c)
  {
    if a.count == b.count && b.count == c.count {
      StrLessTransitive(c.name, b.name, a.name);
    }
  }

  /// Pairs with different names are always ordered one way or the other.
  lemma TargetBeforeTotal(a: TargetCount, b: TargetCount)
    requires a.name != b.name
    ensures TargetBefore(a, b) || TargetBefore(b, a)
  {
    StrLessTotal(a.name, b.name);
  }

  /// Inserting `x` into a sorted list keeps it sorted; `x`'s name is new.
  function InsertTarget(s: seq<TargetCount>, x: TargetCount): (r: seq<TargetCount>)
    requires SortedTargets(s) && forall k :: 0 <= k < |s| ==> s[k].name != x.name
    ensures SortedTargets(r) && |r| == |s| + 1
    ensures forall y :: y in r <==> y in s || y == x
  {
    if s == [] then [x]
    else if TargetBefore(x, s[0]) then
      assert forall k :: 0 < k < |s| ==> TargetBefore(x, s[k]) by {
        forall k | 0 < k < |s| ensures TargetBefore(x, s[k]) { TargetBeforeTransitive(x, s[0], s[k]); }
      }
      [x] + s
    else
      TargetBeforeTotal(x, s[0]);
      var rest := InsertTarget(s[1..], x);
      assert forall y :: y in s <==> y == s[0] || y in s[1..];
      assert forall k :: 0 <= k < |rest| ==> TargetBefore(s[0], rest[k]) by {
        forall k | 0 <= k < |rest| ensures TargetBefore(s[0], rest[k]) {
          assert rest[k] in rest;
        }
      }
      [s[0]] + rest
  }

  /// GetSortedTargetCountPairs: every entry of the map, once, ordered by
  /// count descending and then by name descending.
  method GetSortedTargetCountPairs(m: map<string, nat>) returns (r: seq<TargetCount>)
    ensures SortedTargets(r) && |r| == |m|
    ensures forall y :: y in r <==> y.name in m && m[y.name] == y.count
  {
    r := [];
    var left := m.Keys;
    while left != {}
      invariant left <= m.Keys && SortedTargets(r) && |r| + |left| == |m|
      invariant forall y :: y in r <==> y.name in m.Keys - left && m[y.name] == y.count
      decreases left
    {
      var name :| name in left;
      var x := TargetCount(name, m[name]);
      assert forall k :: 0 <= k < |r| ==> r[k].name != name by {
        forall k | 0 <= k < |r| ensures r[k].name != name { assert r[k] in r; }
      }
      r := InsertTarget(r, x);
      left := left - {name};
    }
  }

  /// A callsite: the caller-relative offset and the inlined callee's name.
  datatype Callsite = Callsite(offset: nat, callee: string)

  /// CallsiteLess: by offset, then by callee name.
  predicate CallsiteLess(a: Callsite, b: Callsite)
  {
    if a.offset != b.offset then a.offset < b.offset else StrLess(a.callee, b.callee)
  }

  /// CallsiteLess is a strict total order, as std::map requires of its comparator.
  lemma CallsiteLessStrictTotal(a: Callsite, b: Callsite, c: Callsite)
    ensures !CallsiteLess(a, a)
    ensures CallsiteLess(a, b) && CallsiteLess(b, c) ==> CallsiteLess(a, c)
    ensures a != b ==> CallsiteLess(a, b) || CallsiteLess(b, a)
    ensures CallsiteLess(a, b) ==> !CallsiteLess(b, a)
  {
    StrLessIrreflexive(a.callee);
    if CallsiteLess(a, b) && CallsiteLess(b, c) && a.offset == b.offset == c.offset {
      StrLessTransitive(a.callee, b.callee, c.callee);
    }
    if a != b && a.offset == b.offset {
      StrLessTotal(a.callee, b.callee);
    }
    if CallsiteLess(a, b) && a.offset == b.offset {
      StrLessAsymmetric(a.callee, b.callee);
    }
  }

  /// Symbol: a function's profile and, per callsite, the profiles of the
  /// functions inlined there.
  datatype Symbol = Symbol(name: string, fileName: string, totalCount: nat, headCount: nat,
                           posCounts: map<nat, ProfileInfo>, callsites: map<Callsite, Symbol>)

  /// A symbol with no samples yet.
  function NewSymbol(name: string, fileName: string): Symbol
  {
    Symbol(name, fileName, 0, 0, map[], map[])
  }

  /// Symbol::Name: "noname" for a null or empty name, else the name itself.
  function Name(name: Option<string>): (r: string)
    ensures r != ""
    ensures name.Some? && name.value != "" ==> r == name.value
    ensures name.None? || name.value == "" ==> r == "noname"
  {
    if name.Some? && |name.value| > 0 then name.value else "noname"
  }

  function InfoAt(m: map<nat, ProfileInfo>, pos: nat): ProfileInfo
  {
    if pos in m then m[pos] else NoInfo
  }

  /// The file name of a default-constructed DILineInfo (LLVM's
  /// DILineInfo::BadString), carried by symbols created without a frame.
  const DefaultFileName := "<invalid>"

  /// The callee a merge adds into: the existing one, or a new empty symbol
  /// named after the callsite's callee.
  function CalleeFor(a: Symbol, c: Callsite): Symbol
  {
    if c in a.callsites then a.callsites[c] else NewSymbol(c.callee, DefaultFileName)
  }

  /// The position counts of a merge: each of `b`'s positions is added into
  /// `a`'s, which is created empty when missing.
  function AddPositions(a: map<nat, ProfileInfo>, b: map<nat, ProfileInfo>): (r: map<nat, ProfileInfo>)
    ensures r.Keys == a.Keys + b.Keys
  {
    map p | p in a.Keys + b.Keys :: if p in b then Plus(InfoAt(a, p), b[p]) else a[p]
  }

  /// Each merged position holds the sum of the two sides' ProfileInfo.
  lemma AddPositionsAt(a: map<nat, ProfileInfo>, b: map<nat, ProfileInfo>, p: nat)
    ensures InfoAt(AddPositions(a, b), p) == Plus(InfoAt(a, p), InfoAt(b, p))
  {
    if p !in b {
      PlusIdentity(InfoAt(a, p));
    }
  }

  /// Symbol::Merge: `b`'s counts are added into `a`, callsite by callsite.
  function Merge(a: Symbol, b: Symbol): (r: Symbol)
    ensures r.name == a.name && r.totalCount == a.totalCount + b.totalCount && r.headCount == a.headCount + b.headCount
    ensures r.fileName == (if a.fileName == "" then b.fileName else a.fileName)
    ensures r.posCounts == AddPositions(a.posCounts, b.posCounts)
    ensures r.callsites.Keys == a.callsites.Keys + b.callsites.Keys
    decreases b
  {
    Symbol(a.name, if a.fileName == "" then b.fileName else a.fileName,
           a.totalCount + b.totalCount, a.headCount + b.headCount,
           AddPositions(a.posCounts, b.posCounts),
           map c | c in a.callsites.Keys + b.callsites.Keys ::
             if c in b.callsites then Merge(CalleeFor(a, c), b.callsites[c]) else a.callsites[c])
  }

  /// The callee a merge leaves at callsite `c`.
  lemma MergeCallee(a: Symbol, b: Symbol, c: Callsite)
    requires c in a.callsites || c in b.callsites
    ensures Merge(a, b).callsites[c] == if c in b.callsites then Merge(CalleeFor(a, c), b.callsites[c]) else a.callsites[c]
  {
  }

  /// Every callee is named after its callsite's callee, all the way down.
  ghost predicate WellNamed(s: Symbol)
    decreases s
  {
    forall c :: c in s.callsites ==> s.callsites[c].name == c.callee && WellNamed(s.callsites[c])
  }

  /// A caller's total covers each of its callees' totals, all the way down.
  ghost predicate Nested(s: Symbol)
    decreases s
  {
    forall c :: c in s.callsites ==> s.callsites[c].totalCount <= s.totalCount && Nested(s.callsites[c])
  }

  /// Merging an empty profile changes nothing.
  lemma MergeEmpty(a: Symbol, name: string)
    ensures Merge(a, NewSymbol(name, "")) == a
  {
    var e := NewSymbol(name, "");
    var r := Merge(a, e);
    forall p | p in r.posCounts ensures r.posCounts[p] == a.posCounts[p] {
      AddPositionsAt(a.posCounts, e.posCounts, p);
      PlusIdentity(a.posCounts[p]);
    }
    forall c | c in r.callsites ensures r.callsites[c] == a.callsites[c] {
      MergeCallee(a, e, c);
    }
    assert r.posCounts == a.posCounts;
    assert r.callsites == a.callsites;
  }

  /// Merging keeps callee names and nested totals.
  lemma {:induction false} MergeKeepsShape(a: Symbol, b: Symbol)
    requires WellNamed(a) && WellNamed(b) && Nested(a) && Nested(b)
    ensures WellNamed(Merge(a, b)) && Nested(Merge(a, b))
    decreases b
  {
    var r := Merge(a, b);
    forall c | c in r.callsites
      ensures r.callsites[c].name == c.callee && WellNamed(r.callsites[c])
      ensures r.callsites[c].totalCount <= r.totalCount && Nested(r.callsites[c])
    {
      MergeCallee(a, b, c);
      if c in b.callsites {
        MergeKeepsShape(CalleeFor(a, c), b.callsites[c]);
      }
    }
  }

  /// The largest value of a finite non-empty set of counts.
  ghost function SetMax(s: set<nat>): (m: nat)
    requires s != {}
    ensures m in s && forall x :: x in s ==> x <= m
    decreases s
  {
    var x :| x in s;
    if s == {x} then x
    else
      var m := SetMax(s - {x});
      assert forall y :: y in s ==> y == x || y in s - {x};
      if x >= m then x else m
  }

  /// Symbol::MaxPosCallsiteCount: the largest position count of the symbol
  /// and of every symbol inlined into it, 0 when there is none.
  ghost function MaxPosCallsiteCount(s: Symbol): nat
    decreases s
  {
    SetMax({0} + (set p | p in s.posCounts :: s.posCounts[p].count) +
           (set c | c in s.callsites :: MaxPosCallsiteCount(s.callsites[c])))
  }

  /// The maximum bounds every position count and every callee's maximum,
  /// and is one of them (or 0).
  lemma MaxPosBounds(s: Symbol)
    ensures forall p :: p in s.posCounts ==> s.posCounts[p].count <= MaxPosCallsiteCount(s)
    ensures forall c :: c in s.callsites ==> MaxPosCallsiteCount(s.callsites[c]) <= MaxPosCallsiteCount(s)
    ensures var r := MaxPosCallsiteCount(s);
      r == 0 || (exists p :: p in s.posCounts && s.posCounts[p].count == r) ||
      (exists c :: c in s.callsites && MaxPosCallsiteCount(s.callsites[c]) == r)
  {
    var pos := set p | p in s.posCounts :: s.posCounts[p].count;
    var sub := set c | c in s.callsites :: MaxPosCallsiteCount(s.callsites[c]);
    assert forall p :: p in s.posCounts ==> s.posCounts[p].count in pos;
    assert forall c :: c in s.callsites ==> MaxPosCallsiteCount(s.callsites[c]) in sub;
  }

  /// A bound on every position count and on every callee's maximum bounds
  /// the symbol's maximum.
  lemma MaxPosBelow(s: Symbol, m: nat)
    requires forall p :: p in s.posCounts ==> s.posCounts[p].count <= m
    requires forall c :: c in s.callsites ==> MaxPosCallsiteCount(s.callsites[c]) <= m
    ensures MaxPosCallsiteCount(s) <= m
  {
    MaxPosBounds(s);
  }

  /// Merging never lowers the maximum position count of either side.
  lemma {:induction false} MergeMaxPos(a: Symbol, b: Symbol)
    ensures MaxPosCallsiteCount(Merge(a, b)) >= MaxPosCallsiteCount(a)
    ensures MaxPosCallsiteCount(Merge(a, b)) >= MaxPosCallsiteCount(b)
    decreases b
  {
    var r := Merge(a, b);
    var m := MaxPosCallsiteCount(r);
    MaxPosBounds(r);
    forall p | p in a.posCounts ensures a.posCounts[p].count <= m {
      AddPositionsAt(a.posCounts, b.posCounts, p);
      assert r.posCounts[p].count >= a.posCounts[p].count;
    }
    forall p | p in b.posCounts ensures b.posCounts[p].count <= m {
      AddPositionsAt(a.posCounts, b.posCounts, p);
      assert r.posCounts[p].count >= b.posCounts[p].count;
    }
    forall c | c in a.callsites ensures MaxPosCallsiteCount(a.callsites[c]) <= m {
      MergeCallee(a, b, c);
      if c in b.callsites {
        MergeMaxPos(a.callsites[c], b.callsites[c]);
      }
    }
    forall c | c in b.callsites ensures MaxPosCallsiteCount(b.callsites[c]) <= m {
      MergeCallee(a, b, c);
      MergeMaxPos(CalleeFor(a, c), b.callsites[c]);
    }
    MaxPosBelow(a, m);
    MaxPosBelow(b, m);
  }

  /// One frame of an inline stack: the function, its file, and the offset
  /// of the frame's line (as InstructionSymbolizer::getOffset computes it).
  datatype Frame = Frame(functionName: string, fileName: string, offset: nat)

  /// The symbol created for an inlined frame.
  function Inlined(f: Frame): Symbol
  {
    NewSymbol(f.functionName, f.fileName)
  }

  /// What happens at the innermost symbol: nothing (TraverseInlineStack),
  /// or AddSourceCount's SUM or MAX update of the leaf position.
  datatype LeafOp = Keep | SumCount(count: nat, numInst: nat) | MaxCount(count: nat, numInst: nat)

  function ApplyLeaf(s: Symbol, pos: nat, op: LeafOp): (r: Symbol)
    ensures r.name == s.name && r.fileName == s.fileName && r.totalCount == s.totalCount
    ensures r.headCount == s.headCount && r.callsites == s.callsites
  {
    match op
    case Keep => s
    case SumCount(count, numInst) =>
      var info := InfoAt(s.posCounts, pos);
      s.(posCounts := s.posCounts[pos := info.(count := info.count + count, numInst := info.numInst + numInst)])
    case MaxCount(count, numInst) =>
      var info := InfoAt(s.posCounts, pos);
      s.(posCounts := s.posCounts[pos := info.(count := Max(info.count, count), numInst := info.numInst + numInst)])
  }

  /// The callsite keys from the outermost caller down to the innermost
  /// callee; frames[0] is the innermost frame.
  function ChainKeys(frames: seq<Frame>): (keys: seq<Callsite>)
    ensures |keys| == if |frames| == 0 then 0 else |frames| - 1
    decreases |frames|
  {
    var n := |frames|;
    if n <= 1 then [] else [Callsite(frames[n - 1].offset, frames[n - 2].functionName)] + ChainKeys(frames[..n - 1])
  }

  /// The symbol reached from `s` by following `keys`.
  function Lookup(s: Symbol, keys: seq<Callsite>): Option<Symbol>
    decreases |keys|
  {
    if keys == [] then Some(s)
    else if keys[0] in s.callsites then Lookup(s.callsites[keys[0]], keys[1..])
    else None
  }

  function TotalOf(s: Option<Symbol>): nat
  {
    if s.Some? then s.value.totalCount else 0
  }

  /// The walk of TraverseInlineStack below the root: every symbol on the
  /// chain gains `count`, missing callees are created from their frame, and
  /// the innermost symbol gets the leaf update.
  function Descend(s: Symbol, frames: seq<Frame>, count: nat, op: LeafOp): (r: Symbol)
    requires |frames| > 0
    ensures r.name == s.name && r.fileName == s.fileName && r.headCount == s.headCount
    ensures r.totalCount == s.totalCount + count
    ensures |frames| > 1 ==> r.posCounts == s.posCounts
    ensures |frames| > 1 ==> r.callsites.Keys == s.callsites.Keys + {ChainKeys(frames)[0]}
    ensures |frames| == 1 ==> r.callsites == s.callsites
    ensures forall c :: c in s.callsites && (|frames| == 1 || c != ChainKeys(frames)[0]) ==> r.callsites[c] == s.callsites[c]
    decreases |frames|
  {
    var n := |frames|;
    var s1 := s.(totalCount := s.totalCount + count);
    if n == 1 then ApplyLeaf(s1, frames[0].offset, op)
    else
      var key := Callsite(frames[n - 1].offset, frames[n - 2].functionName);
      var child := if key in s.callsites then s.callsites[key] else Inlined(frames[n - 2]);
      s1.(callsites := s.callsites[key := Descend(child, frames[..n - 1], count, op)])
  }

  /// TraverseInlineStack on the root symbol: its total gains `count`, it
  /// takes the outermost frame's file name when it has none, and the chain
  /// below it is walked.
  function TraverseInlineStack(root: Symbol, frames: seq<Frame>, count: nat, op: LeafOp): (r: Symbol)
    requires |frames| > 0
    ensures r.totalCount == root.totalCount + count && r.name == root.name
    ensures r.fileName == (if root.fileName == "" && frames[|frames| - 1].fileName != "" then frames[|frames| - 1].fileName else root.fileName)
  {
    var outer := frames[|frames| - 1];
    var root' := if root.fileName == "" && outer.fileName != "" then root.(fileName := outer.fileName) else root;
    Descend(root', frames, count, op)
  }

  /// Every symbol on the chain, from the root to the returned innermost
  /// symbol, exists afterwards and has gained exactly `count`.
  lemma {:induction false} TraverseAddsAlongChain(s: Symbol, frames: seq<Frame>, count: nat, op: LeafOp, k: nat)
    requires |frames| > 0 && k <= |ChainKeys(frames)|
    ensures var keys := ChainKeys(frames)[..k];
      Lookup(Descend(s, frames, count, op), keys).Some? &&
      TotalOf(Lookup(Descend(s, frames, count, op), keys)) == TotalOf(Lookup(s, keys)) + count
    decreases |frames|
  {
    if k > 0 {
      var n := |frames|;
      var key := Callsite(frames[n - 1].offset, frames[n - 2].functionName);
      var child := if key in s.callsites then s.callsites[key] else Inlined(frames[n - 2]);
      var rest := ChainKeys(frames[..n - 1])[..k - 1];
      ChainKeysSplit(frames, k);
      TraverseAddsAlongChain(child, frames[..n - 1], count, op, k - 1);
      DescendChild(s, frames, count, op);
      LookupCons(Descend(s, frames, count, op), key, rest);
      LookupCons(s, key, rest);
      if key !in s.callsites {
        NewChainAbsent(child, rest);
      }
    }
  }

  /// The first k chain keys: the outermost callsite, then the first k - 1
  /// keys of the chain one frame shorter.
  lemma ChainKeysSplit(frames: seq<Frame>, k: nat)
    requires 0 < k < |frames|
    ensures ChainKeys(frames)[..k] ==
      [Callsite(frames[|frames| - 1].offset, frames[|frames| - 2].functionName)] + ChainKeys(frames[..|frames| - 1])[..k - 1]
  {
  }

  /// Following a non-empty key list goes through the first callee.
  lemma LookupCons(s: Symbol, key: Callsite, rest: seq<Callsite>)
    ensures Lookup(s, [key] + rest) == if key in s.callsites then Lookup(s.callsites[key], rest) else None
  {
    assert ([key] + rest)[1..] == rest;
  }

  /// Below the root, the walk continues in the outermost callee (created
  /// from its frame when missing).
  lemma DescendChild(s: Symbol, frames: seq<Frame>, count: nat, op: LeafOp)
    requires |frames| > 1
    ensures var n := |frames|;
      var key := Callsite(frames[n - 1].offset, frames[n - 2].functionName);
      var child := if key in s.callsites then s.callsites[key] else Inlined(frames[n - 2]);
      key in Descend(s, frames, count, op).callsites &&
      Descend(s, frames, count, op).callsites[key] == Descend(child, frames[..n - 1], count, op)
  {
  }

  /// Below a fresh symbol every non-empty chain is absent, so its total reads 0.
  lemma NewChainAbsent(s: Symbol, keys: seq<Callsite>)
    requires s.callsites == map[] && s.totalCount == 0
    ensures TotalOf(Lookup(s, keys)) == 0
  {
  }

  /// The leaf position after AddSourceCount's SUM and MAX updates.
  lemma {:induction false} LeafUpdated(s: Symbol, frames: seq<Frame>, count: nat, numInst: nat, max: bool)
    requires |frames| > 0
    ensures var op := if max then MaxCount(count, numInst) else SumCount(count, numInst);
      var keys := ChainKeys(frames);
      var before := Lookup(s, keys);
      var prev := if before.Some? then InfoAt(before.value.posCounts, frames[0].offset) else NoInfo;
      var after := Lookup(Descend(s, frames, count, op), keys);
      after.Some? && frames[0].offset in after.value.posCounts &&
      after.value.posCounts[frames[0].offset].count == (if max then Max(prev.count, count) else prev.count + count) &&
      after.value.posCounts[frames[0].offset].numInst == prev.numInst + numInst &&
      after.value.posCounts[frames[0].offset].targetMap == prev.targetMap
    decreases |frames|
  {
    var n := |frames|;
    if n > 1 {
      var keys := ChainKeys(frames);
      var key := keys[0];
      var child := if key in s.callsites then s.callsites[key] else Inlined(frames[n - 2]);
      assert keys[1..] == ChainKeys(frames[..n - 1]);
      LeafUpdated(child, frames[..n - 1], count, numInst, max);
      if key !in s.callsites {
        NewChainAbsent(child, keys[1..]);
        assert Lookup(child, keys[1..]).None? || keys[1..] == [];
      }
    }
  }

  /// Walking an inline stack keeps callee names and nested totals.
  lemma DescendKeepsShape(s: Symbol, frames: seq<Frame>, count: nat, op: LeafOp)
    requires |frames| > 0 && WellNamed(s) && Nested(s)
    ensures WellNamed(Descend(s, frames, count, op)) && Nested(Descend(s, frames, count, op))
  {
    DescendKeepsNames(s, frames, count, op);
    DescendKeepsNesting(s, frames, count, op);
  }

  /// Walking an inline stack keeps every callee named after its callsite.
  lemma {:induction false} DescendKeepsNames(s: Symbol, frames: seq<Frame>, count: nat, op: LeafOp)
    requires |frames| > 0 && WellNamed(s)
    ensures WellNamed(Descend(s, frames, count, op))
    decreases |frames|
  {
    var n := |frames|;
    var r := Descend(s, frames, count, op);
    if n > 1 {
      var key := Callsite(frames[n - 1].offset, frames[n - 2].functionName);
      var child := if key in s.callsites then s.callsites[key] else Inlined(frames[n - 2]);
      assert child.name == key.callee && WellNamed(child);
      DescendKeepsNames(child, frames[..n - 1], count, op);
      var d := Descend(child, frames[..n - 1], count, op);
      assert r.callsites == s.callsites[key := d];
      forall c | c in r.callsites
        ensures r.callsites[c].name == c.callee && WellNamed(r.callsites[c])
      {
        if c != key {
          assert r.callsites[c] == s.callsites[c];
        }
      }
    } else {
      assert r.callsites == s.callsites;
    }
  }

  /// Walking an inline stack keeps every callee's total within its caller's.
  lemma {:induction false} DescendKeepsNesting(s: Symbol, frames: seq<Frame>, count: nat, op: LeafOp)
    requires |frames| > 0 && Nested(s)
    ensures Nested(Descend(s, frames, count, op))
    decreases |frames|
  {
    var n := |frames|;
    var r := Descend(s, frames, count, op);
    if n > 1 {
      var key := Callsite(frames[n - 1].offset, frames[n - 2].functionName);
      var child := if key in s.callsites then s.callsites[key] else Inlined(frames[n - 2]);
      assert child.totalCount <= s.totalCount && Nested(child);
      DescendKeepsNesting(child, frames[..n - 1], count, op);
      var d := Descend(child, frames[..n - 1], count, op);
      assert r.callsites == s.callsites[key := d];
      forall c | c in r.callsites
        ensures r.callsites[c].totalCount <= r.totalCount && Nested(r.callsites[c])
      {
        if c != key {
          assert r.callsites[c] == s.callsites[c];
        }
      }
    } else {
      assert r.callsites == s.callsites;
    }
  }

  /// Merging adds the two profiles' totals at every callsite path: a path
  /// present on one side only keeps that side's total.
  lemma {:induction false} MergeAddsAlongPaths(a: Symbol, b: Symbol, keys: seq<Callsite>)
    ensures TotalOf(Lookup(Merge(a, b), keys)) == TotalOf(Lookup(a, keys)) + TotalOf(Lookup(b, keys))
    decreases |keys|
  {
    if keys != [] {
      var c := keys[0];
      if c in b.callsites {
        MergeCallee(a, b, c);
        MergeAddsAlongPaths(CalleeFor(a, c), b.callsites[c], keys[1..]);
        if c !in a.callsites {
          NewChainAbsent(CalleeFor(a, c), keys[1..]);
        }
      } else if c in a.callsites {
        MergeCallee(a, b, c);
      }
    }
  }
}
