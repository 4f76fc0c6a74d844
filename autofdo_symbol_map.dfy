// AutoFDO's SymbolMap: the profile of every function in the binary, keyed by
// the function's start location, with the address map used to find the
// function that contains a sampled instruction.
module AutofdoSymbolMap {
  import opened Util
  import opened AutofdoLocation
  import opened AutofdoSymbol

  /// One function (or one range of a split function) read from the debug
  /// information; `mergedSize` is written by MergeSplitFunctions.
  datatype ElfSymbol = ElfSymbol(start: Loc, name: string, size: nat, mergedSize: nat, groupId: nat)

  /// The address map is a std::map keyed by start location.
  predicate SortedStarts(addrs: seq<ElfSymbol>)
  {
    forall i, j :: 0 <= i < j < |addrs| ==> LocLess(addrs[i].start, addrs[j].start)
  }

  lemma LessThenLe(a: Loc, b: Loc, c: Loc)
    requires LocLess(a, b) && LocLe(b, c)
    ensures LocLess(a, c)
  {
    if b != c { LocLessTransitive(a, b, c); }
  }

  /// std::map::upper_bound over the first `n` entries: the index of the
  /// first start strictly after `loc`.
  function UpperBound(addrs: seq<ElfSymbol>, loc: Loc, n: nat): (i: nat)
    requires SortedStarts(addrs) && n <= |addrs|
    ensures i <= n
    ensures forall k :: 0 <= k < i ==> LocLe(addrs[k].start, loc)
    ensures forall k :: i <= k < n ==> LocLess(loc, addrs[k].start)
    decreases n
  {
    if n == 0 then 0
    else if LocLess(loc, addrs[n - 1].start) then UpperBound(addrs, loc, n - 1)
    else
      assert LocLe(addrs[n - 1].start, loc) by {
        if addrs[n - 1].start != loc { LocLessTotal(addrs[n - 1].start, loc); }
      }
      assert forall k :: 0 <= k < n - 1 ==> LocLe(addrs[k].start, loc) by {
        forall k | 0 <= k < n - 1 ensures LocLe(addrs[k].start, loc) {
          LessThenLe(addrs[k].start, addrs[n - 1].start, loc);
        }
      }
      n
  }

  /// Entry `k` holds the greatest start at or before `loc`.
  ghost predicate GreatestAtOrBefore(addrs: seq<ElfSymbol>, k: nat, loc: Loc)
  {
    k < |addrs| && LocLe(addrs[k].start, loc) &&
    forall j :: k < j < |addrs| ==> LocLess(loc, addrs[j].start)
  }

  /// SymbolMap::findSymbolFromLocation: the start of the function whose
  /// range [start, start + Size] (end inclusive) holds `loc`, looked up at
  /// the greatest start at or before `loc`. `present` are the starts that
  /// have a symbol.
  function Locate(addrs: seq<ElfSymbol>, present: set<Loc>, loc: Loc): (r: Option<Loc>)
    requires SortedStarts(addrs) && |addrs| > 0
    ensures forall k: nat :: GreatestAtOrBefore(addrs, k, loc) ==>
      var e := addrs[k];
      r == (if e.start.objectFile == loc.objectFile && loc.offset <= e.start.offset + e.size && e.start in present
            then Some(e.start) else None)
    ensures (forall k :: 0 <= k < |addrs| ==> !LocLe(addrs[k].start, loc)) ==> r.None?
    ensures r.Some? ==> r.value in present && r.value.objectFile == loc.objectFile && r.value.offset <= loc.offset
  {
    var i := UpperBound(addrs, loc, |addrs|);
    if i == 0 then
      assert forall k: nat :: !GreatestAtOrBefore(addrs, k, loc) by {
        forall k: nat | k < |addrs| && LocLe(addrs[k].start, loc) ensures false {
          if addrs[k].start == loc { LocLessIrreflexive(loc); } else { LocLessAsymmetric(loc, addrs[k].start); }
        }
      }
      None
    else
      var e := addrs[i - 1];
      assert GreatestAtOrBefore(addrs, i - 1, loc);
      assert forall k: nat :: GreatestAtOrBefore(addrs, k, loc) ==> k == i - 1 by {
        forall k: nat | GreatestAtOrBefore(addrs, k, loc) ensures k == i - 1 {
          if k < i - 1 {
            LocLessAsymmetric(loc, addrs[i - 1].start);
          } else if k > i - 1 {
            LocLessIrreflexive(loc);
            if addrs[k].start != loc { LocLessAsymmetric(loc, addrs[k].start); }
          }
        }
      }
      if e.start.objectFile != loc.objectFile then None
      else if e.start.offset + e.size >= loc.offset then
        if e.start in present then
          assert LocLe(e.start, loc);
          assert e.start.offset <= loc.offset by {
            if e.start != loc && !(e.start.offset < loc.offset) { StrLessIrreflexive(loc.objectFile); }
          }
          Some(e.start)
        else None
      else None
  }

  /// When the greatest start at or before `loc` is in another object file,
  /// no function of `loc`'s own file starts at or before it: the lookup
  /// correctly gives up.
  lemma {:induction false} OtherFileMeansNoCandidate(addrs: seq<ElfSymbol>, k: nat, loc: Loc)
    requires SortedStarts(addrs) && GreatestAtOrBefore(addrs, k, loc)
    requires addrs[k].start.objectFile != loc.objectFile
    ensures forall j :: 0 <= j < |addrs| && addrs[j].start.objectFile == loc.objectFile ==> loc.offset < addrs[j].start.offset
  {
    forall j | 0 <= j < |addrs| && addrs[j].start.objectFile == loc.objectFile
      ensures loc.offset < addrs[j].start.offset
    {
      var f, g := loc.objectFile, addrs[k].start.objectFile;
      if j < k {
        assert StrLess(f, g);
        assert StrLess(g, f);
        StrLessAsymmetric(f, g);
      } else if j > k {
        StrLessIrreflexive(f);
      }
    }
  }

  /// SymbolMap::AddSymbol on the map: a location already present keeps its
  /// symbol; a new one gets an empty symbol named `name`.
  function WithSymbol(m: map<Loc, Symbol>, loc: Loc, name: string): (r: map<Loc, Symbol>)
    ensures r.Keys == m.Keys + {loc}
    ensures forall l :: l in m ==> r[l] == m[l]
    ensures loc !in m ==> r[loc] == NewSymbol(name, DefaultFileName)
  {
    if loc in m then m else m[loc := NewSymbol(name, DefaultFileName)]
  }

  /// Adding the same location twice is the same as adding it once.
  lemma WithSymbolIdempotent(m: map<Loc, Symbol>, loc: Loc, name: string, name': string)
    ensures WithSymbol(WithSymbol(m, loc, name), loc, name') == WithSymbol(m, loc, name)
  {
  }

  /// The symbols the SymbolMap constructor registers from the address map.
  function Registered(addrs: seq<ElfSymbol>): map<Loc, Symbol>
    decreases |addrs|
  {
    if addrs == [] then map[]
    else WithSymbol(Registered(addrs[..|addrs| - 1]), addrs[|addrs| - 1].start, addrs[|addrs| - 1].name)
  }

  /// Every start of the address map has exactly its own empty symbol.
  lemma {:induction false} RegisteredSymbols(addrs: seq<ElfSymbol>)
    requires SortedStarts(addrs)
    ensures Registered(addrs).Keys == StartsOf(addrs)
    ensures forall k :: 0 <= k < |addrs| ==> Registered(addrs)[addrs[k].start] == NewSymbol(addrs[k].name, DefaultFileName)
    decreases |addrs|
  {
    if addrs != [] {
      var n := |addrs|;
      var init := addrs[..n - 1];
      var last := addrs[n - 1];
      assert SortedStarts(init);
      RegisteredSymbols(init);
      StartsOfSnoc(init, last);
      assert init + [last] == addrs;
      assert last.start !in Registered(init) by {
        forall k | 0 <= k < n - 1 ensures init[k].start != last.start {
          LocLessIrreflexive(init[k].start);
        }
      }
    }
  }

  /// The start locations of an address map.
  function StartsOf(addrs: seq<ElfSymbol>): set<Loc>
  {
    set k | 0 <= k < |addrs| :: addrs[k].start
  }

  lemma StartsOfSnoc(addrs: seq<ElfSymbol>, e: ElfSymbol)
    ensures StartsOf(addrs + [e]) == StartsOf(addrs) + {e.start}
  {
    var s := addrs + [e];
    assert forall k :: 0 <= k < |addrs| ==> s[k] == addrs[k];
    assert s[|addrs|] == e;
  }

  /// ShouldEmit: a count is emitted when it reaches the threshold.
  predicate Emits(threshold: real, count: nat)
  {
    count as real >= threshold
  }

  /// Larger counts are emitted whenever smaller ones are.
  lemma EmitsMonotone(threshold: real, c: nat, d: nat)
    requires Emits(threshold, c) && c <= d
    ensures Emits(threshold, d)
  {
  }

  /// AddSourceCount's operations; INVALID stops the program.
  datatype Operation = INVALID | SUM | MAX

  /// The update AddSourceCount applies at the innermost symbol.
  function LeafOpFor(op: Operation, count: nat, numInst: nat): LeafOp
  {
    match op
    case INVALID => Keep
    case SUM => SumCount(count, numInst)
    case MAX => MaxCount(count, numInst)
  }

  /// Sum of the sizes of the first `n` ranges of a group.
  function SizeSum(group: seq<ElfSymbol>, n: nat): nat
    requires n <= |group|
  {
    if n == 0 then 0 else SizeSum(group, n - 1) + group[n - 1].size
  }

  predicate DistinctStarts(group: seq<ElfSymbol>)
  {
    forall i, j :: 0 <= i < j < |group| ==> group[i].start != group[j].start
  }

  /// The first range at index `i` or later that has a profile.
  function FirstProfiled(present: set<Loc>, group: seq<ElfSymbol>, i: nat): (r: Option<nat>)
    requires i <= |group|
    ensures r.Some? ==> i <= r.value < |group| && group[r.value].start in present
    ensures r.Some? ==> forall k :: i <= k < r.value ==> group[k].start !in present
    ensures r.None? ==> forall k :: i <= k < |group| ==> group[k].start !in present
    decreases |group| - i
  {
    if i == |group| then None
    else if group[i].start in present then Some(i)
    else FirstProfiled(present, group, i + 1)
  }

  /// The profiles of the ranges in [lo, hi), in group order.
  function ProfiledIn(symbols: map<Loc, Symbol>, group: seq<ElfSymbol>, lo: nat, hi: nat): seq<Symbol>
    requires lo <= hi <= |group|
    decreases hi
  {
    if hi == lo then []
    else ProfiledIn(symbols, group, lo, hi - 1) +
         (if group[hi - 1].start in symbols then [symbols[group[hi - 1].start]] else [])
  }

  /// Merging each profile of `ps` in turn into `acc`.
  function MergeAll(acc: Symbol, ps: seq<Symbol>): Symbol
    decreases |ps|
  {
    if ps == [] then acc else Merge(MergeAll(acc, ps[..|ps| - 1]), ps[|ps| - 1])
  }

  function StartsIn(group: seq<ElfSymbol>, lo: nat, hi: nat): set<Loc>
    requires lo <= hi <= |group|
  {
    set k | lo <= k < hi :: group[k].start
  }

  datatype GroupOutcome = GroupOutcome(symbols: map<Loc, Symbol>, group: seq<ElfSymbol>)

  /// MergeSplitFunctions on one group: the first profiled range is the
  /// master; every later profile is merged into it and removed; the
  /// master (range 0 when none is profiled) records the group's total size.
  function MergeGroup(symbols: map<Loc, Symbol>, group: seq<ElfSymbol>): GroupOutcome
  {
    var n := |group|;
    if n <= 1 then GroupOutcome(symbols, group)
    else match FirstProfiled(symbols.Keys, group, 0)
      case None => GroupOutcome(symbols, group[0 := group[0].(mergedSize := SizeSum(group, n))])
      case Some(m) =>
        var start := group[m].start;
        GroupOutcome((symbols - StartsIn(group, m + 1, n))[start := MergeAll(symbols[start], ProfiledIn(symbols, group, m + 1, n))],
                     group[m := group[m].(mergedSize := SizeSum(group, n))])
  }

  function SumTotals(ps: seq<Symbol>): nat
    decreases |ps|
  {
    if ps == [] then 0 else SumTotals(ps[..|ps| - 1]) + ps[|ps| - 1].totalCount
  }

  /// The merged master's total is the sum of all merged totals.
  lemma {:induction false} MergeAllTotal(acc: Symbol, ps: seq<Symbol>)
    ensures MergeAll(acc, ps).totalCount == acc.totalCount + SumTotals(ps)
    decreases |ps|
  {
    if ps != [] { MergeAllTotal(acc, ps[..|ps| - 1]); }
  }

  lemma {:induction false} ProfiledNone(symbols: map<Loc, Symbol>, group: seq<ElfSymbol>, lo: nat, hi: nat)
    requires lo <= hi <= |group|
    requires forall k :: lo <= k < hi ==> group[k].start !in symbols
    ensures ProfiledIn(symbols, group, lo, hi) == []
    decreases hi
  {
    if hi > lo { ProfiledNone(symbols, group, lo, hi - 1); }
  }

  lemma {:induction false} ProfiledSplit(symbols: map<Loc, Symbol>, group: seq<ElfSymbol>, lo: nat, mid: nat, hi: nat)
    requires lo <= mid <= hi <= |group|
    ensures ProfiledIn(symbols, group, lo, hi) == ProfiledIn(symbols, group, lo, mid) + ProfiledIn(symbols, group, mid, hi)
    decreases hi
  {
    if hi > mid { ProfiledSplit(symbols, group, lo, mid, hi - 1); }
  }

  /// Merging a group keeps every sampled count: the master's total is the
  /// sum of the totals of all profiled ranges of the group.
  lemma MergeGroupTotal(symbols: map<Loc, Symbol>, group: seq<ElfSymbol>, m: nat)
    requires |group| > 1 && FirstProfiled(symbols.Keys, group, 0) == Some(m)
    ensures MergeGroup(symbols, group).symbols[group[m].start].totalCount ==
            SumTotals(ProfiledIn(symbols, group, 0, |group|))
  {
    var n := |group|;
    var start := group[m].start;
    var master := symbols[start];
    var rest := ProfiledIn(symbols, group, m + 1, n);
    assert MergeGroup(symbols, group).symbols[start] == MergeAll(master, rest);
    ProfiledNone(symbols, group, 0, m);
    ProfiledSplit(symbols, group, 0, m, n);
    ProfiledSplit(symbols, group, m, m + 1, n);
    assert ProfiledIn(symbols, group, m, m + 1) == [master];
    assert ProfiledIn(symbols, group, 0, n) == [master] + rest;
    MergeAllTotal(master, rest);
    SumTotalsFront(master, rest);
  }

  lemma {:induction false} SumTotalsFront(x: Symbol, ps: seq<Symbol>)
    ensures SumTotals([x] + ps) == x.totalCount + SumTotals(ps)
    decreases |ps|
  {
    if ps != [] {
      assert ([x] + ps)[..|ps|] == [x] + ps[..|ps| - 1];
      SumTotalsFront(x, ps[..|ps| - 1]);
    }
  }

  /// Merging a group keeps the master's profile, drops every later
  /// profiled range of the group and touches no other symbol; a group of
  /// one range, or without profiles, keeps its symbols.
  lemma MergeGroupSymbols(symbols: map<Loc, Symbol>, group: seq<ElfSymbol>)
    requires DistinctStarts(group)
    ensures var r := MergeGroup(symbols, group);
      var n := |group|;
      (n <= 1 || FirstProfiled(symbols.Keys, group, 0).None?) ==> r.symbols == symbols
    ensures var r := MergeGroup(symbols, group);
      var n := |group|;
      n > 1 && FirstProfiled(symbols.Keys, group, 0).Some? ==>
        var m := FirstProfiled(symbols.Keys, group, 0).value;
        r.symbols.Keys == symbols.Keys - StartsIn(group, m + 1, n) &&
        (forall l :: l in r.symbols && l != group[m].start ==> r.symbols[l] == symbols[l])
  {
    var n := |group|;
    if n > 1 && FirstProfiled(symbols.Keys, group, 0).Some? {
      var m := FirstProfiled(symbols.Keys, group, 0).value;
      assert group[m].start !in StartsIn(group, m + 1, n);
    }
  }

  /// The group's total size is recorded on the master range (range 0 when
  /// none is profiled); groups of one range are untouched.
  lemma MergeGroupSizes(symbols: map<Loc, Symbol>, group: seq<ElfSymbol>)
    ensures var r := MergeGroup(symbols, group);
      |r.group| == |group| &&
      (|group| <= 1 ==> r.group == group) &&
      (|group| > 1 ==>
        var master := match FirstProfiled(symbols.Keys, group, 0) case None => 0 case Some(m) => m;
        r.group[master].mergedSize == SizeSum(group, |group|) &&
        forall k :: 0 <= k < |group| && k != master ==> r.group[k] == group[k])
  {
  }

  datatype AllOutcome = AllOutcome(symbols: map<Loc, Symbol>, groups: seq<seq<ElfSymbol>>)

  /// MergeSplitFunctions over the first `n` groups, in order.
  function MergeGroups(symbols: map<Loc, Symbol>, groups: seq<seq<ElfSymbol>>, n: nat): (r: AllOutcome)
    requires n <= |groups|
    ensures |r.groups| == n
    decreases n
  {
    if n == 0 then AllOutcome(symbols, [])
    else
      var prev := MergeGroups(symbols, groups, n - 1);
      var o := MergeGroup(prev.symbols, groups[n - 1]);
      AllOutcome(o.symbols, prev.groups + [o.group])
  }

  /// Replacing the first unprocessed group extends the processed prefix.
  lemma ReplaceNext<T>(done: seq<T>, all: seq<T>, g: nat, x: T)
    requires |done| == g < |all|
    ensures (done + all[g..])[g := x] == (done + [x]) + all[g + 1..]
  {
  }

  /// The state of MergeSplitFunctions' scan of one group after ranges [0, i).
  ghost predicate GroupScan(s0: map<Loc, Symbol>, group: seq<ElfSymbol>, i: nat, hasMaster: bool,
                            masterIdx: nat, sizeSum: nat, symbols: map<Loc, Symbol>)
  {
    1 <= i <= |group| && sizeSum == SizeSum(group, i) &&
    var first := FirstProfiled(s0.Keys, group, 0);
    (hasMaster <==> first.Some? && first.value < i) &&
    (!hasMaster ==> masterIdx == 0 && symbols == s0) &&
    (hasMaster ==>
       (masterIdx == first.value &&
        symbols == (s0 - StartsIn(group, masterIdx + 1, i))[group[masterIdx].start :=
                     MergeAll(s0[group[masterIdx].start], ProfiledIn(s0, group, masterIdx + 1, i))]))
  }

  lemma GroupScanStart(s0: map<Loc, Symbol>, group: seq<ElfSymbol>)
    requires |group| > 1
    ensures GroupScan(s0, group, 1, group[0].start in s0, 0, group[0].size, s0)
  {
    var first := FirstProfiled(s0.Keys, group, 0);
    if group[0].start in s0 {
      assert (s0 - StartsIn(group, 1, 1))[group[0].start := s0[group[0].start]] == s0;
    }
  }

  /// Once every range is scanned, the scan's state is the group's outcome.
  lemma GroupScanDone(s0: map<Loc, Symbol>, group: seq<ElfSymbol>, hasMaster: bool,
                      masterIdx: nat, sizeSum: nat, symbols: map<Loc, Symbol>)
    requires |group| > 1 && GroupScan(s0, group, |group|, hasMaster, masterIdx, sizeSum, symbols)
    ensures MergeGroup(s0, group) == GroupOutcome(symbols, group[masterIdx := group[masterIdx].(mergedSize := sizeSum)])
  {
    var n := |group|;
    var first := FirstProfiled(s0.Keys, group, 0);
    assert sizeSum == SizeSum(group, n);
    if first.Some? {
      var m := first.value;
      var start := group[m].start;
      assert hasMaster && masterIdx == m;
      assert symbols == (s0 - StartsIn(group, m + 1, n))[start := MergeAll(s0[start], ProfiledIn(s0, group, m + 1, n))];
    } else {
      assert !hasMaster && masterIdx == 0 && symbols == s0;
    }
  }

  /// Range `i` has no profile: only the size sum moves.
  lemma GroupScanSkip(s0: map<Loc, Symbol>, group: seq<ElfSymbol>, i: nat, hasMaster: bool,
                      masterIdx: nat, sizeSum: nat, symbols: map<Loc, Symbol>)
    requires DistinctStarts(group) && i < |group|
    requires GroupScan(s0, group, i, hasMaster, masterIdx, sizeSum, symbols)
    requires group[i].start !in symbols
    ensures GroupScan(s0, group, i + 1, hasMaster, masterIdx, sizeSum + group[i].size, symbols)
  {
    var first := FirstProfiled(s0.Keys, group, 0);
    assert group[i].start !in s0 by {
      if hasMaster {
        assert group[i].start != group[masterIdx].start;
      }
    }
    if hasMaster {
      assert StartsIn(group, masterIdx + 1, i + 1) == StartsIn(group, masterIdx + 1, i) + {group[i].start};
      assert s0 - StartsIn(group, masterIdx + 1, i + 1) == s0 - StartsIn(group, masterIdx + 1, i);
      assert ProfiledIn(s0, group, masterIdx + 1, i + 1) == ProfiledIn(s0, group, masterIdx + 1, i);
    } else if first.Some? {
      assert first.value != i;
    }
  }

  /// Range `i` is the first one with a profile: it becomes the master.
  lemma GroupScanMaster(s0: map<Loc, Symbol>, group: seq<ElfSymbol>, i: nat,
                        sizeSum: nat, symbols: map<Loc, Symbol>)
    requires DistinctStarts(group) && i < |group|
    requires GroupScan(s0, group, i, false, 0, sizeSum, symbols)
    requires group[i].start in symbols
    ensures GroupScan(s0, group, i + 1, true, i, sizeSum + group[i].size, symbols)
  {
    var first := FirstProfiled(s0.Keys, group, 0);
    assert first == Some(i);
    assert (s0 - StartsIn(group, i + 1, i + 1))[group[i].start := s0[group[i].start]] == s0;
  }

  /// Range `i` has a profile and a master exists: the profile is merged
  /// into the master and removed.
  lemma GroupScanMerge(s0: map<Loc, Symbol>, group: seq<ElfSymbol>, i: nat,
                       masterIdx: nat, sizeSum: nat, symbols: map<Loc, Symbol>)
    requires DistinctStarts(group) && i < |group|
    requires GroupScan(s0, group, i, true, masterIdx, sizeSum, symbols)
    requires group[i].start in symbols
    ensures group[masterIdx].start in symbols && group[i].start != group[masterIdx].start
    ensures GroupScan(s0, group, i + 1, true, masterIdx, sizeSum + group[i].size,
                      symbols[group[masterIdx].start := Merge(symbols[group[masterIdx].start], symbols[group[i].start])] - {group[i].start})
  {
    var ms := group[masterIdx].start;
    var si := group[i].start;
    assert si != ms;
    assert si !in StartsIn(group, masterIdx + 1, i);
    assert si in s0 && symbols[si] == s0[si];
    var ps := ProfiledIn(s0, group, masterIdx + 1, i);
    assert ProfiledIn(s0, group, masterIdx + 1, i + 1) == ps + [s0[si]];
    assert (ps + [s0[si]])[..|ps|] == ps;
    var merged := MergeAll(s0[ms], ps + [s0[si]]);
    assert merged == Merge(MergeAll(s0[ms], ps), s0[si]);
    assert StartsIn(group, masterIdx + 1, i + 1) == StartsIn(group, masterIdx + 1, i) + {si};
    var next := symbols[ms := Merge(symbols[ms], symbols[si])] - {si};
    assert next == (s0 - StartsIn(group, masterIdx + 1, i + 1))[ms := merged];
  }

  /// SymbolMap: the profile of every function, the split-function groups
  /// and the address map read from the binary, and the emit threshold.
  class SymbolMap {
    var symbols: map<Loc, Symbol>
    var groups: seq<seq<ElfSymbol>>
    var addresses: seq<ElfSymbol>
    var countThreshold: real

    ghost predicate Valid()
      reads this
    {
      SortedStarts(addresses)
    }

    /// The constructor registers an empty symbol at every start of the
    /// address map, whose loading from the binary is not modelled.
    constructor (addresses: seq<ElfSymbol>, groups: seq<seq<ElfSymbol>>)
      requires SortedStarts(addresses)
      ensures Valid() && this.addresses == addresses && this.groups == groups && countThreshold == 0.0
      ensures symbols == Registered(addresses)
    {
      this.addresses := addresses;
      this.groups := groups;
      countThreshold := 0.0;
      symbols := map[];
      new;
      var i := 0;
      while i < |addresses|
        invariant 0 <= i <= |addresses| && symbols == Registered(addresses[..i])
        invariant this.addresses == addresses && this.groups == groups && countThreshold == 0.0
      {
        AddSymbol(addresses[i].start, addresses[i].name);
        assert addresses[..i + 1][..i] == addresses[..i];
        i := i + 1;
      }
      assert addresses[..i] == addresses;
    }

    /// AddSymbol: an empty symbol named `name` at `loc`, unless one is there.
    method AddSymbol(loc: Loc, name: string)
      modifies this
      ensures symbols == WithSymbol(old(symbols), loc, name)
      ensures groups == old(groups) && addresses == old(addresses) && countThreshold == old(countThreshold)
    {
      if loc !in symbols {
        symbols := symbols[loc := NewSymbol(name, DefaultFileName)];
      }
    }

    /// RemoveSymbol: the symbol at `loc`, if any, is dropped.
    method RemoveSymbol(loc: Loc)
      modifies this
      ensures symbols == old(symbols) - {loc}
      ensures groups == old(groups) && addresses == old(addresses) && countThreshold == old(countThreshold)
    {
      symbols := symbols - {loc};
    }

    method SetCountThreshold(n: real)
      modifies this
      ensures countThreshold == n
      ensures symbols == old(symbols) && groups == old(groups) && addresses == old(addresses)
    {
      countThreshold := n;
    }

    predicate ShouldEmit(count: nat)
      reads this
    {
      Emits(countThreshold, count)
    }

    function FindSymbolFromLocation(loc: Loc): Option<Loc>
      reads this
      requires Valid() && |addresses| > 0
    {
      Locate(addresses, symbols.Keys, loc)
    }

    /// AddSourceCount: the inline stack `frames` (innermost first) of a
    /// sample at `loc` is walked from the enclosing function; `exited`
    /// reports the INVALID operation, after which the program stops.
    method AddSourceCount(loc: Loc, frames: seq<Frame>, count: nat, numInst: nat, op: Operation) returns (exited: bool)
      requires Valid() && (|frames| == 0 || |addresses| > 0)
      modifies this
      ensures groups == old(groups) && addresses == old(addresses) && countThreshold == old(countThreshold)
      ensures |frames| == 0 ==> symbols == old(symbols) && !exited
      ensures |frames| > 0 ==>
        var root := Locate(old(addresses), old(symbols).Keys, loc);
        (root.None? ==> symbols == old(symbols) && !exited) &&
        (root.Some? ==>
           (exited == (op == INVALID) &&
            symbols == old(symbols)[root.value := TraverseInlineStack(old(symbols)[root.value], frames, count, LeafOpFor(op, count, numInst))]))
    {
      exited := false;
      if |frames| == 0 {
        return;
      }
      var root := FindSymbolFromLocation(loc);
      if root.None? {
        return;
      }
      symbols := symbols[root.value := TraverseInlineStack(symbols[root.value], frames, count, LeafOpFor(op, count, numInst))];
      exited := op == INVALID;
    }

    /// MergeSplitFunctions on group `g`.
    method MergeGroupAt(g: nat)
      requires g < |groups| && DistinctStarts(groups[g])
      modifies this
      ensures var o := MergeGroup(old(symbols), old(groups[g]));
        symbols == o.symbols && groups == old(groups)[g := o.group]
      ensures addresses == old(addresses) && countThreshold == old(countThreshold)
    {
      var group := groups[g];
      if |group| <= 1 {
        return;
      }
      ghost var s0 := symbols;
      var hasMaster := group[0].start in symbols;
      var masterIdx: nat := 0;
      var sizeSum: nat := group[0].size;
      GroupScanStart(s0, group);
      var i := 1;
      while i < |group|
        invariant GroupScan(s0, group, i, hasMaster, masterIdx, sizeSum, symbols)
        invariant groups == old(groups) && addresses == old(addresses) && countThreshold == old(countThreshold)
        decreases |group| - i
      {
        hasMaster, masterIdx, sizeSum := ScanRange(s0, group, i, hasMaster, masterIdx, sizeSum);
        i := i + 1;
      }
      GroupScanDone(s0, group, hasMaster, masterIdx, sizeSum, symbols);
      groups := groups[g := group[masterIdx := group[masterIdx].(mergedSize := sizeSum)]];
    }

    /// One range of the group's loop: a range without a profile only adds
    /// its size, the first profiled one becomes the master, and each later
    /// profiled one is merged into the master and removed.
    method ScanRange(ghost s0: map<Loc, Symbol>, group: seq<ElfSymbol>, i: nat, hasMaster: bool, masterIdx: nat, sizeSum: nat)
      returns (hasMaster': bool, masterIdx': nat, sizeSum': nat)
      requires DistinctStarts(group) && i < |group| && GroupScan(s0, group, i, hasMaster, masterIdx, sizeSum, symbols)
      modifies this
      ensures GroupScan(s0, group, i + 1, hasMaster', masterIdx', sizeSum', symbols)
      ensures groups == old(groups) && addresses == old(addresses) && countThreshold == old(countThreshold)
    {
      hasMaster', masterIdx' := hasMaster, masterIdx;
      if group[i].start !in symbols {
        GroupScanSkip(s0, group, i, hasMaster, masterIdx, sizeSum, symbols);
      } else if hasMaster {
        GroupScanMerge(s0, group, i, masterIdx, sizeSum, symbols);
        symbols := symbols[group[masterIdx].start := Merge(symbols[group[masterIdx].start], symbols[group[i].start])];
        symbols := symbols - {group[i].start};
      } else {
        GroupScanMaster(s0, group, i, sizeSum, symbols);
        hasMaster' := true;
        masterIdx' := i;
      }
      sizeSum' := sizeSum + group[i].size;
    }

    /// SymbolMap::MergeSplitFunctions: every group in turn. A group holds the
    /// address ranges of one function split by the compiler, as the symbol
    /// loader reads them from the debug table; the ranges are disjoint, so
    /// their starts differ. (With a repeated start the source would merge the
    /// master's profile into itself and then erase it.)
    method MergeSplitFunctions()
      requires forall g :: 0 <= g < |groups| ==> DistinctStarts(groups[g])
      modifies this
      ensures var o := MergeGroups(old(symbols), old(groups), |old(groups)|);
        symbols == o.symbols && groups == o.groups
      ensures addresses == old(addresses) && countThreshold == old(countThreshold)
    {
      ghost var s0 := symbols;
      ghost var g0 := groups;
      var g := 0;
      while g < |groups|
        invariant |groups| == |g0| && 0 <= g <= |g0|
        invariant symbols == MergeGroups(s0, g0, g).symbols
        invariant groups == MergeGroups(s0, g0, g).groups + g0[g..]
        invariant addresses == old(addresses) && countThreshold == old(countThreshold)
      {
        ghost var prev := MergeGroups(s0, g0, g);
        ghost var o := MergeGroup(prev.symbols, g0[g]);
        assert groups[g] == g0[g];
        MergeGroupAt(g);
        assert MergeGroups(s0, g0, g + 1) == AllOutcome(o.symbols, prev.groups + [o.group]);
        ReplaceNext(prev.groups, g0, g, o.group);
        g := g + 1;
      }
    }
  }
}
