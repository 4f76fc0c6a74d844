// The perf-script reader of llvm-create-profile: memory mappings of the
// profiled process, resolution of sampled addresses to object-file
// locations, and the counting of sampled instructions, branches and
// straight-line ranges out of each event's last-branch-record stack.
module AutofdoPerfReader {
  import opened Util
  import opened AutofdoLocation

  /// One mapped region of the profiled process.
  datatype MemoryMapping = MemoryMapping(objectFile: string, length: nat, start: nat, offset: nat, preferredLoadAddress: nat)

  /// MemoryMapping::intersects: the lower mapping (the second argument when
  /// the starts are equal) reaches the higher one's start; touching counts.
  predicate Intersects(a: MemoryMapping, b: MemoryMapping)
  {
    var lowest := if a.start < b.start then a else b;
    var highest := if a.start < b.start then b else a;
    lowest.start + lowest.length >= highest.start
  }

  /// Intersection does not depend on the argument order, and holds exactly
  /// when the mapping that starts first reaches the other one's start.
  lemma IntersectsSymmetric(a: MemoryMapping, b: MemoryMapping)
    ensures Intersects(a, b) == Intersects(b, a)
    ensures Intersects(a, b) <==>
      (a.start <= b.start ==> a.start + a.length >= b.start) && (b.start <= a.start ==> b.start + b.length >= a.start)
  {
  }

  /// The address space is a std::set ordered by start address alone.
  predicate SortedMappings(ms: seq<MemoryMapping>)
  {
    forall i, j :: 0 <= i < j < |ms| ==> ms[i].start < ms[j].start
  }

  /// The start addresses present in the address space.
  function StartsOf(ms: seq<MemoryMapping>): set<nat>
  {
    set k | 0 <= k < |ms| :: ms[k].start
  }

  lemma StartsOfCons(ms: seq<MemoryMapping>)
    requires |ms| > 0
    ensures StartsOf(ms) == {ms[0].start} + StartsOf(ms[1..])
  {
    assert forall k :: 0 < k < |ms| ==> ms[k] == ms[1..][k - 1];
    assert forall k :: 0 <= k < |ms| - 1 ==> ms[1..][k] == ms[k + 1];
  }

  /// std::set::insert: a mapping whose start is already present is not
  /// inserted; otherwise it is placed in start order.
  function InsertMapping(ms: seq<MemoryMapping>, m: MemoryMapping): (r: seq<MemoryMapping>)
    requires SortedMappings(ms)
    ensures SortedMappings(r) && |r| > 0
    ensures r[0].start == m.start || (|ms| > 0 && r[0].start == ms[0].start)
  {
    if ms == [] then [m]
    else if ms[0].start == m.start then ms
    else if m.start < ms[0].start then [m] + ms
    else [ms[0]] + InsertMapping(ms[1..], m)
  }

  /// After insertion the address space holds the new start and the old
  /// ones, and nothing else.
  lemma {:induction false} InsertMappingStarts(ms: seq<MemoryMapping>, m: MemoryMapping)
    requires SortedMappings(ms)
    ensures StartsOf(InsertMapping(ms, m)) == StartsOf(ms) + {m.start}
  {
    var r := InsertMapping(ms, m);
    if ms == [] {
      assert r[0] == m;
    } else if ms[0].start == m.start {
      assert ms[0].start in StartsOf(ms);
    } else if m.start < ms[0].start {
      StartsOfCons(r);
      assert r[1..] == ms;
    } else {
      InsertMappingStarts(ms[1..], m);
      StartsOfCons(ms);
      StartsOfCons(r);
      assert r[1..] == InsertMapping(ms[1..], m);
    }
  }

  /// A mapping whose start is already present leaves the address space as
  /// it was; any other one is added to it, and nothing else changes.
  lemma {:induction false} InsertMappingContents(ms: seq<MemoryMapping>, m: MemoryMapping)
    requires SortedMappings(ms)
    ensures m.start in StartsOf(ms) ==> InsertMapping(ms, m) == ms
    ensures m.start !in StartsOf(ms) ==> multiset(InsertMapping(ms, m)) == multiset(ms) + multiset{m}
  {
    InsertMappingPresent(ms, m);
    InsertMappingAbsent(ms, m);
  }

  /// A start below the first one is not in the address space.
  lemma BelowFirstAbsent(ms: seq<MemoryMapping>, m: MemoryMapping)
    requires SortedMappings(ms) && |ms| > 0 && m.start < ms[0].start
    ensures m.start !in StartsOf(ms)
  {
    forall k | 0 <= k < |ms| ensures ms[k].start != m.start {
      if k > 0 {
        assert ms[0].start < ms[k].start;
      }
    }
  }

  lemma {:induction false} InsertMappingPresent(ms: seq<MemoryMapping>, m: MemoryMapping)
    requires SortedMappings(ms)
    ensures m.start in StartsOf(ms) ==> InsertMapping(ms, m) == ms
  {
    if ms != [] && ms[0].start != m.start {
      if m.start < ms[0].start {
        BelowFirstAbsent(ms, m);
      } else {
        InsertMappingPresent(ms[1..], m);
        StartsOfCons(ms);
        assert ms == [ms[0]] + ms[1..];
      }
    }
  }

  lemma {:induction false} InsertMappingAbsent(ms: seq<MemoryMapping>, m: MemoryMapping)
    requires SortedMappings(ms)
    ensures m.start !in StartsOf(ms) ==> multiset(InsertMapping(ms, m)) == multiset(ms) + multiset{m}
  {
    if ms != [] && ms[0].start != m.start && m.start >= ms[0].start {
      var rest := InsertMapping(ms[1..], m);
      InsertMappingAbsent(ms[1..], m);
      StartsOfCons(ms);
      assert InsertMapping(ms, m) == [ms[0]] + rest;
      assert ms == [ms[0]] + ms[1..];
    }
  }

  /// Mapping `k` is the last one that starts strictly below `address`.
  ghost predicate Precedes(ms: seq<MemoryMapping>, k: nat, address: nat)
  {
    k < |ms| && ms[k].start < address && forall j :: k < j < |ms| ==> ms[j].start >= address
  }

  /// std::lower_bound over the first `n` mappings with "start < address":
  /// the index of the first mapping starting at or after `address`.
  function LowerBound(ms: seq<MemoryMapping>, address: nat, n: nat): (i: nat)
    requires SortedMappings(ms) && n <= |ms|
    ensures i <= n
    ensures forall k :: 0 <= k < i ==> ms[k].start < address
    ensures forall k :: i <= k < n ==> ms[k].start >= address
    decreases n
  {
    if n == 0 then 0
    else if ms[n - 1].start >= address then LowerBound(ms, address, n - 1)
    else n
  }

  /// PerfDataSampleReader::resolveAddress: the address is taken relative
  /// to the last mapping starting strictly below it (end inclusive).
  function ResolveAddress(ms: seq<MemoryMapping>, address: nat): Option<Loc>
    requires SortedMappings(ms)
  {
    var i := LowerBound(ms, address, |ms|);
    if i == 0 then None
    else
      var m := ms[i - 1];
      if address > m.start + m.length then None
      else Some(Loc(m.objectFile, address - m.start + m.preferredLoadAddress))
  }

  /// Resolution fails when no mapping starts strictly below the address.
  lemma ResolveBelowAll(ms: seq<MemoryMapping>, address: nat)
    requires SortedMappings(ms)
    requires forall k :: 0 <= k < |ms| ==> ms[k].start >= address
    ensures ResolveAddress(ms, address).None?
  {
  }

  /// Against the last mapping starting below it, the address resolves to
  /// its offset from the mapping's start plus the preferred load address,
  /// and fails past the mapping's end.
  lemma ResolveAgainstPreceding(ms: seq<MemoryMapping>, address: nat, k: nat)
    requires SortedMappings(ms) && Precedes(ms, k, address)
    ensures ResolveAddress(ms, address) ==
      (if address > ms[k].start + ms[k].length then None
       else Some(Loc(ms[k].objectFile, address - ms[k].start + ms[k].preferredLoadAddress)))
  {
    var i := LowerBound(ms, address, |ms|);
    assert ms[k].start < address;
    assert k < i;
    assert ms[i - 1].start < address;
    assert i - 1 <= k;
  }

  /// An address equal to a mapping's start is not resolved against that
  /// mapping: the lookup takes the mapping before it.
  lemma ResolveAtStartUsesPrevious(ms: seq<MemoryMapping>, k: nat)
    requires SortedMappings(ms) && 0 < k < |ms|
    ensures Precedes(ms, k - 1, ms[k].start)
  {
  }

  /// The first mapping's start never resolves.
  lemma ResolveFirstStartFails(ms: seq<MemoryMapping>)
    requires SortedMappings(ms) && |ms| > 0
    ensures ResolveAddress(ms, ms[0].start).None?
  {
    ResolveBelowAll(ms, ms[0].start);
  }

  /// One last-branch-record entry: a taken branch from `from` to `to`.
  datatype LbrElement = LbrElement(from: nat, to: nat)

  /// The largest straight-line range length counted.
  const MaxRangeLength: nat := 1048576

  function Reverse<T>(s: seq<T>): (r: seq<T>)
    ensures |r| == |s| && forall i :: 0 <= i < |s| ==> r[i] == s[|s| - 1 - i]
  {
    if s == [] then [] else Reverse(s[1..]) + [s[0]]
  }

  /// Both ends of entry `i` resolve.
  predicate BranchResolved(ms: seq<MemoryMapping>, lbr: seq<LbrElement>, i: nat)
    requires SortedMappings(ms) && i < |lbr|
  {
    ResolveAddress(ms, lbr[i].from).Some? && ResolveAddress(ms, lbr[i].to).Some?
  }

  /// The branch counted for entry `i`, if both ends resolve.
  function BranchAt(ms: seq<MemoryMapping>, lbr: seq<LbrElement>, i: nat): multiset<Branch>
    requires SortedMappings(ms) && i < |lbr|
  {
    if BranchResolved(ms, lbr, i) then
      multiset{Branch(ResolveAddress(ms, lbr[i].from).value, ResolveAddress(ms, lbr[i].to).value)}
    else multiset{}
  }

  /// Entry `i` falls through to entry `i + 1`'s branch: the range from the
  /// first one's target to the second one's source, both ends resolved.
  datatype RangeOutcome = Counted(range: Range) | OtherFile | Invalid | Unresolved

  function RangeAt(ms: seq<MemoryMapping>, lbr: seq<LbrElement>, i: nat): RangeOutcome
    requires SortedMappings(ms) && i + 1 < |lbr|
  {
    var to := ResolveAddress(ms, lbr[i].to);
    var nextFrom := ResolveAddress(ms, lbr[i + 1].from);
    if to.None? || nextFrom.None? then Unresolved
    else if lbr[i].to <= lbr[i + 1].from && lbr[i + 1].from - lbr[i].to < MaxRangeLength then
      if to.value.objectFile == nextFrom.value.objectFile then
        Counted(Range(to.value, Loc(nextFrom.value.objectFile, nextFrom.value.offset + 1)))
      else OtherFile
    else Invalid
  }

  function RangeCount(o: RangeOutcome): multiset<Range>
  {
    if o.Counted? then multiset{o.range} else multiset{}
  }

  /// Counts gathered from branch stacks: branches and ranges counted, and
  /// the branches and ranges dropped.
  datatype Tally = Tally(branches: multiset<Branch>, ranges: multiset<Range>, droppedBranches: nat, droppedRanges: nat)

  const NoTally := Tally(multiset{}, multiset{}, 0, 0)

  function TallyPlus(a: Tally, b: Tally): (r: Tally)
    ensures |r.branches| == |a.branches| + |b.branches| && |r.ranges| == |a.ranges| + |b.ranges|
  {
    Tally(a.branches + b.branches, a.ranges + b.ranges, a.droppedBranches + b.droppedBranches, a.droppedRanges + b.droppedRanges)
  }

  lemma TallyPlusAssociative(a: Tally, b: Tally, c: Tally)
    ensures TallyPlus(TallyPlus(a, b), c) == TallyPlus(a, TallyPlus(b, c))
  {
    assert (a.branches + b.branches) + c.branches == a.branches + (b.branches + c.branches);
    assert (a.ranges + b.ranges) + c.ranges == a.ranges + (b.ranges + c.ranges);
  }

  /// What non-last entry `i` contributes: its branch or a dropped branch,
  /// and its fall-through range, a dropped range or nothing.
  function EntryTally(ms: seq<MemoryMapping>, lbr: seq<LbrElement>, i: nat): Tally
    requires SortedMappings(ms) && i + 1 < |lbr|
  {
    var r := RangeAt(ms, lbr, i);
    Tally(BranchAt(ms, lbr, i), RangeCount(r), if BranchResolved(ms, lbr, i) then 0 else 1, if r.Invalid? then 1 else 0)
  }

  /// What the first `n` non-last entries of a (reversed) stack contribute.
  function TallyUpTo(ms: seq<MemoryMapping>, lbr: seq<LbrElement>, n: nat): Tally
    requires SortedMappings(ms) && n < |lbr|
    decreases n
  {
    if n == 0 then NoTally else TallyPlus(TallyUpTo(ms, lbr, n - 1), EntryTally(ms, lbr, n - 1))
  }

  /// What a whole (reversed) stack contributes: the non-last entries, then
  /// the last entry's branch when both its ends resolve, never a drop.
  function StackTally(ms: seq<MemoryMapping>, lbr: seq<LbrElement>): Tally
    requires SortedMappings(ms) && |lbr| > 0
  {
    TallyPlus(TallyUpTo(ms, lbr, |lbr| - 1), Tally(BranchAt(ms, lbr, |lbr| - 1), multiset{}, 0, 0))
  }

  /// Every non-last entry either counts a branch or is dropped, and gives
  /// at most one range or range drop.
  lemma {:induction false} TallyAccounts(ms: seq<MemoryMapping>, lbr: seq<LbrElement>, n: nat)
    requires SortedMappings(ms) && n < |lbr|
    ensures |TallyUpTo(ms, lbr, n).branches| + TallyUpTo(ms, lbr, n).droppedBranches == n
    ensures |TallyUpTo(ms, lbr, n).ranges| + TallyUpTo(ms, lbr, n).droppedRanges <= n
    decreases n
  {
    if n > 0 {
      TallyAccounts(ms, lbr, n - 1);
      var e := EntryTally(ms, lbr, n - 1);
      assert |e.branches| + e.droppedBranches == 1;
      assert |e.ranges| + e.droppedRanges <= 1;
    }
  }

  /// Range `r` is the fall-through from entry `i`'s target to entry
  /// `i + 1`'s source: raw addresses in order and less than MaxRangeLength
  /// apart, both resolved into the same object file, the end one past the
  /// resolved source.
  ghost predicate FallThrough(ms: seq<MemoryMapping>, lbr: seq<LbrElement>, i: nat, r: Range)
    requires SortedMappings(ms) && i + 1 < |lbr|
  {
    lbr[i].to <= lbr[i + 1].from < lbr[i].to + MaxRangeLength &&
    r.begin.objectFile == r.end.objectFile && r.end.offset >= 1 &&
    ResolveAddress(ms, lbr[i].to) == Some(r.begin) &&
    ResolveAddress(ms, lbr[i + 1].from) == Some(Loc(r.end.objectFile, r.end.offset - 1))
  }

  /// Every counted range is the fall-through of one of the entries.
  lemma {:induction false} TallyRangesWellFormed(ms: seq<MemoryMapping>, lbr: seq<LbrElement>, n: nat)
    requires SortedMappings(ms) && n < |lbr|
    ensures forall r :: r in TallyUpTo(ms, lbr, n).ranges ==> exists i :: 0 <= i < n && FallThrough(ms, lbr, i, r)
    decreases n
  {
    if n > 0 {
      TallyRangesWellFormed(ms, lbr, n - 1);
      var o := RangeAt(ms, lbr, n - 1);
      if o.Counted? {
        assert FallThrough(ms, lbr, n - 1, o.range);
      }
    }
  }

  /// One line of `perf script` output, already parsed.
  datatype Line = Mmap(mapping: MemoryMapping) | Event(ip: nat, stack: seq<LbrElement>) | Unparsed

  /// PerfDataSampleReader: the address space and the sample counts.
  class PerfDataSampleReader {
    var mappings: seq<MemoryMapping>
    var ipCount: multiset<Loc>
    var branchCount: multiset<Branch>
    var rangeCount: multiset<Range>
    var nbDropedBranch: nat
    var nbDropedIP: nat
    var nbDropedRange: nat
    var processedEvent: nat
    /// MinEventLineNumber / MaxEventLineNumber when given on the command line.
    const minEvent: Option<real>
    const maxEvent: Option<real>

    ghost predicate Valid()
      reads this
    {
      SortedMappings(mappings)
    }

    constructor (minEvent: Option<real>, maxEvent: Option<real>)
      ensures Valid() && this.minEvent == minEvent && this.maxEvent == maxEvent
      ensures mappings == [] && ipCount == multiset{} && branchCount == multiset{} && rangeCount == multiset{}
      ensures nbDropedBranch == 0 && nbDropedIP == 0 && nbDropedRange == 0 && processedEvent == 0
    {
      this.minEvent := minEvent;
      this.maxEvent := maxEvent;
      mappings := [];
      ipCount := multiset{};
      branchCount := multiset{};
      rangeCount := multiset{};
      nbDropedBranch := 0;
      nbDropedIP := 0;
      nbDropedRange := 0;
      processedEvent := 0;
    }

    /// parseSingleLine: a mapping joins the address space; an event is
    /// numbered and, inside the event window, counted; other lines are
    /// ignored.
    method ParseSingleLine(line: Line)
      requires Valid()
      requires line.Event? ==> |line.stack| > 0
      modifies this
      ensures Valid()
      ensures line.Mmap? ==>
        (mappings == InsertMapping(old(mappings), line.mapping) && processedEvent == old(processedEvent) &&
         ipCount == old(ipCount) && nbDropedIP == old(nbDropedIP) && Counters() == old(Counters()))
      ensures line.Unparsed? ==>
        (mappings == old(mappings) && processedEvent == old(processedEvent) &&
         ipCount == old(ipCount) && nbDropedIP == old(nbDropedIP) && Counters() == old(Counters()))
      ensures line.Event? ==> mappings == old(mappings) && processedEvent == old(processedEvent) + 1
      ensures line.Event? && Skipped(processedEvent) ==>
        ipCount == old(ipCount) && nbDropedIP == old(nbDropedIP) && Counters() == old(Counters())
      ensures line.Event? && !Skipped(processedEvent) ==>
        var resolved := ResolveAddress(mappings, line.ip);
        ipCount == old(ipCount) + (if line.ip != 0 && resolved.Some? then multiset{resolved.value} else multiset{}) &&
        nbDropedIP == old(nbDropedIP) + (if line.ip != 0 && resolved.None? then 1 else 0) &&
        Counters() == TallyPlus(old(Counters()), StackTally(mappings, Reverse(line.stack)))
    {
      match line
      case Mmap(m) =>
        mappings := InsertMapping(mappings, m);
      case Event(ip, stack) =>
        ProcessEvent(ip, stack);
      case Unparsed =>
    }

    /// Whether event number `n` lies outside the configured window.
    predicate Skipped(n: nat)
    {
      (minEvent.Some? && (n as real) < minEvent.value) || (maxEvent.Some? && (n as real) > maxEvent.value)
    }

    /// The branch and range counters as one tally.
    function Counters(): Tally
      reads this
    {
      Tally(branchCount, rangeCount, nbDropedBranch, nbDropedRange)
    }

    /// One sampled event: its instruction pointer (0 when absent) and its
    /// branch stack, most recent branch first.
    method ProcessEvent(ip: nat, stack: seq<LbrElement>)
      requires Valid() && |stack| > 0
      modifies this
      ensures Valid() && mappings == old(mappings) && processedEvent == old(processedEvent) + 1
      ensures Skipped(processedEvent) ==>
        ipCount == old(ipCount) && nbDropedIP == old(nbDropedIP) && Counters() == old(Counters())
      ensures !Skipped(processedEvent) ==>
        var resolved := ResolveAddress(mappings, ip);
        ipCount == old(ipCount) + (if ip != 0 && resolved.Some? then multiset{resolved.value} else multiset{}) &&
        nbDropedIP == old(nbDropedIP) + (if ip != 0 && resolved.None? then 1 else 0) &&
        Counters() == TallyPlus(old(Counters()), StackTally(mappings, Reverse(stack)))
    {
      processedEvent := processedEvent + 1;
      if Skipped(processedEvent) {
        return;
      }
      CountIp(ip);
      CountStack(Reverse(stack));
    }

    /// A nonzero instruction pointer is counted at its resolved location,
    /// or dropped.
    method CountIp(ip: nat)
      requires Valid()
      modifies this
      ensures mappings == old(mappings) && processedEvent == old(processedEvent) && Counters() == old(Counters())
      ensures var resolved := ResolveAddress(mappings, ip);
        ipCount == old(ipCount) + (if ip != 0 && resolved.Some? then multiset{resolved.value} else multiset{}) &&
        nbDropedIP == old(nbDropedIP) + (if ip != 0 && resolved.None? then 1 else 0)
    {
      if ip != 0 {
        var resolved := ResolveAddress(mappings, ip);
        if resolved.Some? {
          ipCount := ipCount + multiset{resolved.value};
        } else {
          nbDropedIP := nbDropedIP + 1;
        }
      }
    }

    /// The reversed branch stack: every entry but the last counts its
    /// branch and its fall-through range; the last counts its branch only.
    method CountStack(lbr: seq<LbrElement>)
      requires Valid() && |lbr| > 0
      modifies this
      ensures mappings == old(mappings) && processedEvent == old(processedEvent)
      ensures ipCount == old(ipCount) && nbDropedIP == old(nbDropedIP)
      ensures Counters() == TallyPlus(old(Counters()), StackTally(mappings, lbr))
    {
      ghost var start := Counters();
      var i := 0;
      while i < |lbr| - 1
        invariant 0 <= i <= |lbr| - 1 && mappings == old(mappings)
        invariant processedEvent == old(processedEvent) && ipCount == old(ipCount) && nbDropedIP == old(nbDropedIP)
        invariant Counters() == TallyPlus(start, TallyUpTo(mappings, lbr, i))
      {
        CountEntry(lbr, i);
        TallyPlusAssociative(start, TallyUpTo(mappings, lbr, i), EntryTally(mappings, lbr, i));
        i := i + 1;
      }
      CountLast(lbr);
      TallyPlusAssociative(start, TallyUpTo(mappings, lbr, i), Tally(BranchAt(mappings, lbr, i), multiset{}, 0, 0));
    }

    /// A non-last entry of the reversed branch stack.
    method CountEntry(lbr: seq<LbrElement>, i: nat)
      requires Valid() && i + 1 < |lbr|
      modifies this
      ensures mappings == old(mappings) && processedEvent == old(processedEvent)
      ensures ipCount == old(ipCount) && nbDropedIP == old(nbDropedIP)
      ensures Counters() == TallyPlus(old(Counters()), EntryTally(mappings, lbr, i))
    {
      var from := ResolveAddress(mappings, lbr[i].from);
      var to := ResolveAddress(mappings, lbr[i].to);
      if from.Some? && to.Some? {
        branchCount := branchCount + multiset{Branch(from.value, to.value)};
      } else {
        nbDropedBranch := nbDropedBranch + 1;
      }
      CountRange(lbr, i);
    }

    /// The fall-through range after a non-last entry.
    method CountRange(lbr: seq<LbrElement>, i: nat)
      requires Valid() && i + 1 < |lbr|
      modifies this
      ensures mappings == old(mappings) && processedEvent == old(processedEvent)
      ensures ipCount == old(ipCount) && nbDropedIP == old(nbDropedIP)
      ensures branchCount == old(branchCount) && nbDropedBranch == old(nbDropedBranch)
      ensures rangeCount == old(rangeCount) + RangeCount(RangeAt(mappings, lbr, i))
      ensures nbDropedRange == old(nbDropedRange) + (if RangeAt(mappings, lbr, i).Invalid? then 1 else 0)
    {
      var to := ResolveAddress(mappings, lbr[i].to);
      var nextFrom := ResolveAddress(mappings, lbr[i + 1].from);
      if to.Some? && nextFrom.Some? {
        if lbr[i].to <= lbr[i + 1].from && lbr[i + 1].from - lbr[i].to < MaxRangeLength {
          if to.value.objectFile == nextFrom.value.objectFile {
            rangeCount := rangeCount + multiset{Range(to.value, Loc(nextFrom.value.objectFile, nextFrom.value.offset + 1))};
          }
        } else {
          nbDropedRange := nbDropedRange + 1;
        }
      }
    }

    /// The last entry of the reversed branch stack counts its branch when
    /// both ends resolve; nothing is dropped for it.
    method CountLast(lbr: seq<LbrElement>)
      requires Valid() && |lbr| > 0
      modifies this
      ensures mappings == old(mappings) && processedEvent == old(processedEvent)
      ensures ipCount == old(ipCount) && nbDropedIP == old(nbDropedIP)
      ensures Counters() == TallyPlus(old(Counters()), Tally(BranchAt(mappings, lbr, |lbr| - 1), multiset{}, 0, 0))
    {
      var from := ResolveAddress(mappings, lbr[|lbr| - 1].from);
      var to := ResolveAddress(mappings, lbr[|lbr| - 1].to);
      if from.Some? && to.Some? {
        branchCount := branchCount + multiset{Branch(from.value, to.value)};
      }
    }
  }
}
