// The text sample profile of llvm-create-profile: three sections (ranges,
// addresses, branches), each a record count followed by that many records,
// read into count maps keyed by instruction locations of one object file.
module AutofdoTextReader {
  import opened Util
  import opened AutofdoLocation

  /// One line of the profile file, as the scanf formats see it: a record
  /// count, a range `from-to:count`, an address `addr:count`, a branch
  /// `from->to:count`, or anything else.
  datatype Line =
    | CountLine(n: nat)
    | RangeLine(from: nat, to: nat, count: nat)
    | AddressLine(addr: nat, count: nat)
    | BranchLine(from: nat, to: nat, count: nat)
    | OtherLine

  datatype SectionKind = RangeSection | AddressSection | BranchSection

  predicate Fits(kind: SectionKind, l: Line)
  {
    match kind
    case RangeSection => l.RangeLine?
    case AddressSection => l.AddressLine?
    case BranchSection => l.BranchLine?
  }

  predicate AllFit(kind: SectionKind, ls: seq<Line>)
  {
    forall i :: 0 <= i < |ls| ==> Fits(kind, ls[i])
  }

  /// How many of the (at most `n`) lines from position `s` on are records of
  /// the section: reading stops at the end of the file or at the first line
  /// that does not match.
  function RunLength(lines: seq<Line>, s: nat, n: nat, kind: SectionKind): (r: nat)
    ensures r <= n && (r > 0 ==> s + r <= |lines|)
    decreases n
  {
    if n == 0 || s >= |lines| || !Fits(kind, lines[s]) then 0
    else 1 + RunLength(lines, s + 1, n - 1, kind)
  }

  /// The lines taken are records of the section, and when fewer than `n`
  /// are taken the next line is missing or is not one.
  lemma {:induction false} RunLengthFits(lines: seq<Line>, s: nat, n: nat, kind: SectionKind)
    ensures var r := RunLength(lines, s, n, kind);
      (forall j :: s <= j < s + r ==> Fits(kind, lines[j])) &&
      (r < n ==> s + r >= |lines| || !Fits(kind, lines[s + r]))
    decreases n
  {
    if n > 0 && s < |lines| && Fits(kind, lines[s]) {
      RunLengthFits(lines, s + 1, n - 1, kind);
    }
  }

  /// The records a read takes from the file, section by section, and
  /// whether it reached the end of the third section.
  datatype Parsed = Parsed(ranges: seq<Line>, addresses: seq<Line>, branches: seq<Line>, ok: bool)

  /// The section starting with a count line at `p`: the records read, and
  /// whether all of them were there.
  function SectionAt(lines: seq<Line>, p: nat, kind: SectionKind): (r: (seq<Line>, bool))
    requires p < |lines| && lines[p].CountLine?
    ensures AllFit(kind, r.0) && |r.0| <= lines[p].n
    ensures r.1 <==> |r.0| == lines[p].n
    ensures p + 1 + |r.0| <= |lines| && r.0 == lines[p + 1..p + 1 + |r.0|]
  {
    var k := RunLength(lines, p + 1, lines[p].n, kind);
    RunLengthFits(lines, p + 1, lines[p].n, kind);
    (lines[p + 1..p + 1 + k], k == lines[p].n)
  }

  /// readProfile on the file's lines: a missing or malformed count or record
  /// ends the read unsuccessfully, keeping the records before it.
  function ReadSpec(lines: seq<Line>): (r: Parsed)
    ensures AllFit(RangeSection, r.ranges) && AllFit(AddressSection, r.addresses) && AllFit(BranchSection, r.branches)
  {
    if |lines| == 0 || !lines[0].CountLine? then Parsed([], [], [], false)
    else
      var (ranges, rangesOk) := SectionAt(lines, 0, RangeSection);
      if !rangesOk then Parsed(ranges, [], [], false)
      else
        var p := 1 + lines[0].n;
        if p >= |lines| || !lines[p].CountLine? then Parsed(ranges, [], [], false)
        else
          var (addresses, addressesOk) := SectionAt(lines, p, AddressSection);
          if !addressesOk then Parsed(ranges, addresses, [], false)
          else
            var q := p + 1 + lines[p].n;
            if q >= |lines| || !lines[q].CountLine? then Parsed(ranges, addresses, [], false)
            else
              var (branches, branchesOk) := SectionAt(lines, q, BranchSection);
              Parsed(ranges, addresses, branches, branchesOk)
  }

  /// When all three count lines are found, the read holds the records of
  /// all three sections and succeeds when the branch section is whole.
  lemma ReadSpecWhole(lines: seq<Line>, p: nat, q: nat)
    requires |lines| > 0 && lines[0].CountLine? && SectionAt(lines, 0, RangeSection).1
    requires p == 1 + lines[0].n && p < |lines| && lines[p].CountLine? && SectionAt(lines, p, AddressSection).1
    requires q == p + 1 + lines[p].n && q < |lines| && lines[q].CountLine?
    ensures ReadSpec(lines) == Parsed(SectionAt(lines, 0, RangeSection).0, SectionAt(lines, p, AddressSection).0,
                                      SectionAt(lines, q, BranchSection).0, SectionAt(lines, q, BranchSection).1)
  {
  }

  /// The lines of a profile holding the given records.
  function ProfileLines(ranges: seq<Line>, addresses: seq<Line>, branches: seq<Line>): seq<Line>
  {
    [CountLine(|ranges|)] + ranges + [CountLine(|addresses|)] + addresses + [CountLine(|branches|)] + branches
  }

  /// Reading a well-formed profile gives back exactly its records.
  lemma ReadProfileLines(ranges: seq<Line>, addresses: seq<Line>, branches: seq<Line>)
    requires AllFit(RangeSection, ranges) && AllFit(AddressSection, addresses) && AllFit(BranchSection, branches)
    ensures ReadSpec(ProfileLines(ranges, addresses, branches)) == Parsed(ranges, addresses, branches, true)
  {
    var lines := ProfileLines(ranges, addresses, branches);
    var p := 1 + |ranges|;
    var q := p + 1 + |addresses|;
    assert lines[0] == CountLine(|ranges|);
    assert lines[1..p] == ranges;
    SectionComplete(lines, 0, RangeSection);
    assert lines[p] == CountLine(|addresses|);
    assert lines[p + 1..q] == addresses;
    SectionComplete(lines, p, AddressSection);
    assert lines[q] == CountLine(|branches|);
    assert lines[q + 1..q + 1 + |branches|] == branches;
    SectionComplete(lines, q, BranchSection);
  }

  lemma {:induction false} RunLengthOfRecords(lines: seq<Line>, s: nat, records: seq<Line>, kind: SectionKind)
    requires s + |records| <= |lines| && lines[s..s + |records|] == records && AllFit(kind, records)
    ensures RunLength(lines, s, |records|, kind) == |records|
    decreases |records|
  {
    if |records| > 0 {
      assert lines[s] == records[0];
      assert lines[s + 1..s + |records|] == records[1..];
      RunLengthOfRecords(lines, s + 1, records[1..], kind);
    }
  }

  /// Reading stops at the first line after the records that is missing or
  /// does not match.
  lemma {:induction false} RunLengthStops(lines: seq<Line>, s: nat, n: nat, records: seq<Line>, kind: SectionKind)
    requires |records| < n && s + |records| <= |lines| && lines[s..s + |records|] == records && AllFit(kind, records)
    requires s + |records| >= |lines| || !Fits(kind, lines[s + |records|])
    ensures RunLength(lines, s, n, kind) == |records|
    decreases |records|
  {
    if |records| > 0 {
      assert lines[s] == records[0];
      assert lines[s + 1..s + |records|] == records[1..];
      RunLengthStops(lines, s + 1, n - 1, records[1..], kind);
    }
  }

  /// A file cut short anywhere before its end is read unsuccessfully, and
  /// the range records read are the first ones of the file.
  lemma ReadTruncated(ranges: seq<Line>, addresses: seq<Line>, branches: seq<Line>, j: nat)
    requires AllFit(RangeSection, ranges) && AllFit(AddressSection, addresses) && AllFit(BranchSection, branches)
    requires j < |ProfileLines(ranges, addresses, branches)|
    ensures var r := ReadSpec(ProfileLines(ranges, addresses, branches)[..j]);
      !r.ok && r.ranges <= ranges
  {
    var lines := ProfileLines(ranges, addresses, branches);
    var cut := lines[..j];
    var p := 1 + |ranges|;
    var q := p + 1 + |addresses|;
    assert lines[1..p] == ranges;
    assert lines[p + 1..q] == addresses;
    if j > 0 {
      assert cut[0] == CountLine(|ranges|);
      var r := ReadSpec(cut);
      var k := RunLength(cut, 1, |ranges|, RangeSection);
      assert r.ranges == cut[1..1 + k];
      assert r.ranges == ranges[..k] by {
        forall i | 0 <= i < k ensures r.ranges[i] == ranges[i] {
          assert r.ranges[i] == cut[1 + i] == lines[1 + i];
        }
      }
      if j > q {
        assert cut[p] == CountLine(|addresses|);
        assert cut[q] == CountLine(|branches|);
        var b := RunLength(cut, q + 1, |branches|, BranchSection);
        assert b < |branches| by {
          if b > 0 {
            assert q + 1 + b <= |cut| == j;
          }
        }
      }
    }
  }

  /// Count maps: a key absent from the map counts 0.
  function Get<K>(m: map<K, nat>, k: K): nat
  {
    if k in m then m[k] else 0
  }

  /// `m[k] += c` on a std::map: a missing key is created at 0 first.
  function AddTo<K>(m: map<K, nat>, k: K, c: nat): map<K, nat>
  {
    m[k := Get(m, k) + c]
  }

  /// Adding a sequence of (key, count) entries, in order.
  function AddAll<K(!new)>(m: map<K, nat>, es: seq<(K, nat)>): map<K, nat>
    decreases |es|
  {
    if es == [] then m else AddTo(AddAll(m, es[..|es| - 1]), es[|es| - 1].0, es[|es| - 1].1)
  }

  lemma AddAllSnoc<K(!new)>(m: map<K, nat>, es: seq<(K, nat)>, e: (K, nat))
    ensures AddAll(m, es + [e]) == AddTo(AddAll(m, es), e.0, e.1)
  {
    assert (es + [e])[..|es|] == es;
  }

  /// The counts of the entries with key `k`.
  function CountOf<K(==)>(es: seq<(K, nat)>, k: K): nat
    decreases |es|
  {
    if es == [] then 0
    else CountOf(es[..|es| - 1], k) + (if es[|es| - 1].0 == k then es[|es| - 1].1 else 0)
  }

  /// The counts of all the entries.
  function TotalOf<K>(es: seq<(K, nat)>): nat
    decreases |es|
  {
    if es == [] then 0 else TotalOf(es[..|es| - 1]) + es[|es| - 1].1
  }

  /// Repeated keys accumulate: each key ends at its old count plus the
  /// counts of all its entries, and the keys are the old ones and the
  /// entries' ones.
  lemma {:induction false} AddAllAt<K(!new)>(m: map<K, nat>, es: seq<(K, nat)>, k: K)
    ensures Get(AddAll(m, es), k) == Get(m, k) + CountOf(es, k)
    ensures k in AddAll(m, es) <==> k in m || exists i :: 0 <= i < |es| && es[i].0 == k
    decreases |es|
  {
    if es != [] {
      var init := es[..|es| - 1];
      AddAllAt(m, init, k);
      if k in AddAll(m, init) && k !in m {
        var i :| 0 <= i < |init| && init[i].0 == k;
        assert es[i] == init[i];
      }
      if exists i :: 0 <= i < |es| && es[i].0 == k {
        var i :| 0 <= i < |es| && es[i].0 == k;
        if i < |init| {
          assert init[i] == es[i];
        }
      }
    }
  }

  /// The sum of a count map's values.
  ghost function ValueSum<K>(m: map<K, nat>): int
  {
    SetSum(m.Keys, k => Get(m, k))
  }

  lemma ValueSumUpdate<K>(m: map<K, nat>, k: K, v: nat)
    ensures ValueSum(m[k := v]) == ValueSum(m) - Get(m, k) + v
  {
    var m' := m[k := v];
    var f := x => Get(m, x);
    var g := x => Get(m', x);
    if k in m {
      assert m'.Keys == m.Keys;
      SetSumRemove(m.Keys, k, f);
      SetSumRemove(m.Keys, k, g);
      SetSumCongruent(m.Keys - {k}, f, g);
    } else {
      assert m'.Keys == m.Keys + {k};
      SetSumAdd(m.Keys, k, g);
      SetSumCongruent(m.Keys, f, g);
    }
  }

  /// Accumulating entries raises the sum of the map by the sum of their
  /// counts.
  lemma {:induction false} AddAllValueSum<K(!new)>(m: map<K, nat>, es: seq<(K, nat)>)
    ensures ValueSum(AddAll(m, es)) == ValueSum(m) + TotalOf(es)
    decreases |es|
  {
    if es != [] {
      var init := es[..|es| - 1];
      AddAllValueSum(m, init);
      var e := es[|es| - 1];
      ValueSumUpdate(AddAll(m, init), e.0, Get(AddAll(m, init), e.0) + e.1);
    }
  }

  /// The range record `from-to:count` covers [base + from, base + to + 1).
  function RangeKey(objectFile: string, base: nat, from: nat, to: nat): Range
  {
    Range(Loc(objectFile, base + from), Loc(objectFile, base + to + 1))
  }

  function AddressKey(objectFile: string, base: nat, addr: nat): Loc
  {
    Loc(objectFile, base + addr)
  }

  function BranchKey(objectFile: string, base: nat, from: nat, to: nat): Branch
  {
    Branch(Loc(objectFile, base + from), Loc(objectFile, base + to))
  }

  /// The (key, count) entries of a section's records, in file order.
  function RangeEntries(objectFile: string, base: nat, ls: seq<Line>): seq<(Range, nat)>
    requires AllFit(RangeSection, ls)
    decreases |ls|
  {
    if ls == [] then []
    else
      var l := ls[|ls| - 1];
      RangeEntries(objectFile, base, ls[..|ls| - 1]) + [(RangeKey(objectFile, base, l.from, l.to), l.count)]
  }

  function AddressEntries(objectFile: string, base: nat, ls: seq<Line>): seq<(Loc, nat)>
    requires AllFit(AddressSection, ls)
    decreases |ls|
  {
    if ls == [] then []
    else
      var l := ls[|ls| - 1];
      AddressEntries(objectFile, base, ls[..|ls| - 1]) + [(AddressKey(objectFile, base, l.addr), l.count)]
  }

  function BranchEntries(objectFile: string, base: nat, ls: seq<Line>): seq<(Branch, nat)>
    requires AllFit(BranchSection, ls)
    decreases |ls|
  {
    if ls == [] then []
    else
      var l := ls[|ls| - 1];
      BranchEntries(objectFile, base, ls[..|ls| - 1]) + [(BranchKey(objectFile, base, l.from, l.to), l.count)]
  }

  lemma {:induction false} RangeEntriesAt(objectFile: string, base: nat, ls: seq<Line>, i: nat)
    requires AllFit(RangeSection, ls) && i < |ls|
    ensures |RangeEntries(objectFile, base, ls)| == |ls|
    ensures RangeEntries(objectFile, base, ls)[i] == (RangeKey(objectFile, base, ls[i].from, ls[i].to), ls[i].count)
    decreases |ls|
  {
    if i < |ls| - 1 {
      RangeEntriesAt(objectFile, base, ls[..|ls| - 1], i);
    } else if |ls| > 1 {
      RangeEntriesAt(objectFile, base, ls[..|ls| - 1], 0);
    }
  }

  /// Every range the reader creates lies in the profiled object file and
  /// ends one past the record's last address.
  lemma RangeKeysFromRecords(objectFile: string, base: nat, m: map<Range, nat>, ls: seq<Line>, r: Range)
    requires AllFit(RangeSection, ls)
    requires r in AddAll(m, RangeEntries(objectFile, base, ls)) && r !in m
    ensures exists i :: 0 <= i < |ls| && r == RangeKey(objectFile, base, ls[i].from, ls[i].to)
  {
    var es := RangeEntries(objectFile, base, ls);
    AddAllAt(m, es, r);
    RangeEntriesAt(objectFile, base, ls, 0);
    var i :| 0 <= i < |es| && es[i].0 == r;
    RangeEntriesAt(objectFile, base, ls, i);
  }

  /// The width of a range: `end.offset - begin.offset` in uint64_t
  /// arithmetic, so an inverted range wraps around.
  function Width(r: Range): nat
  {
    (r.end.offset - r.begin.offset) % U64_MOD
  }

  /// A range's count times its width.
  function Weight(m: map<Range, nat>, r: Range): nat
  {
    Get(m, r) * Width(r)
  }

  /// The sum over ranges of count times width.
  ghost function WeightedSum(m: map<Range, nat>): int
  {
    SetSum(m.Keys, k => Weight(m, k))
  }

  /// The sum of the counts in a map (the loop over a std::map), accumulated
  /// in a uint64_t: the exact sum modulo 2^64.
  method SumValues<K>(m: map<K, nat>) returns (s: nat)
    ensures s < U64_MOD
    ensures s == ValueSum(m) % U64_MOD
  {
    var keys := m.Keys;
    s := 0;
    while keys != {}
      invariant keys <= m.Keys
      invariant s < U64_MOD
      invariant (s + SetSum(keys, k => Get(m, k))) % U64_MOD == ValueSum(m) % U64_MOD
      decreases keys
    {
      var k :| k in keys;
      SetSumRemove(keys, k, k => Get(m, k));
      ModAddLeft(s + m[k], SetSum(keys - {k}, k => Get(m, k)));
      s := (s + m[k]) % U64_MOD;
      keys := keys - {k};
    }
  }

  /// The sum over ranges of count times width, accumulated in a uint64_t:
  /// each product and each addition wraps, so the result is the exact
  /// weighted sum modulo 2^64.
  method SumWeighted(m: map<Range, nat>) returns (s: nat)
    ensures s < U64_MOD
    ensures s == WeightedSum(m) % U64_MOD
  {
    var keys := m.Keys;
    s := 0;
    while keys != {}
      invariant keys <= m.Keys
      invariant s < U64_MOD
      invariant (s + SetSum(keys, k => Weight(m, k))) % U64_MOD == WeightedSum(m) % U64_MOD
      decreases keys
    {
      var k :| k in keys;
      SetSumRemove(keys, k, k => Weight(m, k));
      var product := (m[k] * Width(k)) % U64_MOD;
      ModAddLeft(m[k] * Width(k), s + SetSum(keys - {k}, k => Weight(m, k)));
      ModAddLeft(s + product, SetSum(keys - {k}, k => Weight(m, k)));
      s := (s + product) % U64_MOD;
      keys := keys - {k};
    }
  }

  /// When every range covers at least one address, the weighted total is
  /// at least the plain sum of the range counts; the uint64_t totals keep
  /// that order as long as the weighted one does not wrap.
  lemma WeightedAtLeastPlain(m: map<Range, nat>)
    requires forall r :: r in m ==> Width(r) >= 1
    ensures WeightedSum(m) >= ValueSum(m)
    ensures WeightedSum(m) < U64_MOD ==> WeightedSum(m) % U64_MOD >= ValueSum(m) % U64_MOD
  {
    SetSumMonotone(m.Keys, k => Get(m, k), k => Weight(m, k));
    SetSumNonNegative(m.Keys, k => Get(m, k));
  }

  /// A section whose records stop before the count: the records read so far.
  lemma SectionStops(lines: seq<Line>, p: nat, kind: SectionKind, i: nat)
    requires p < |lines| && lines[p].CountLine? && i < lines[p].n
    requires p + 1 + i <= |lines| && AllFit(kind, lines[p + 1..p + 1 + i])
    requires p + 1 + i >= |lines| || !Fits(kind, lines[p + 1 + i])
    ensures SectionAt(lines, p, kind) == (lines[p + 1..p + 1 + i], false)
  {
    RunLengthStops(lines, p + 1, lines[p].n, lines[p + 1..p + 1 + i], kind);
  }

  /// A section with all its records.
  lemma SectionComplete(lines: seq<Line>, p: nat, kind: SectionKind)
    requires p < |lines| && lines[p].CountLine?
    requires p + 1 + lines[p].n <= |lines| && AllFit(kind, lines[p + 1..p + 1 + lines[p].n])
    ensures SectionAt(lines, p, kind) == (lines[p + 1..p + 1 + lines[p].n], true)
  {
    RunLengthOfRecords(lines, p + 1, lines[p + 1..p + 1 + lines[p].n], kind);
  }

  /// After `i` range records from line `s`: all of them were range
  /// records, and `r` is `m` with their counts added.
  predicate RangesRead(objectFile: string, base: nat, lines: seq<Line>, s: nat, i: nat, m: map<Range, nat>, r: map<Range, nat>)
  {
    s + i <= |lines| && AllFit(RangeSection, lines[s..s + i]) &&
    r == AddAll(m, RangeEntries(objectFile, base, lines[s..s + i]))
  }

  /// One more range record read: its count is added last.
  lemma RangeReadStep(objectFile: string, base: nat, lines: seq<Line>, s: nat, i: nat, m: map<Range, nat>, r: map<Range, nat>)
    requires RangesRead(objectFile, base, lines, s, i, m, r) && s + i < |lines| && lines[s + i].RangeLine?
    ensures RangesRead(objectFile, base, lines, s, i + 1, m, AddTo(r, RangeKey(objectFile, base, lines[s + i].from, lines[s + i].to), lines[s + i].count))
  {
    var read := lines[s..s + i];
    assert lines[s..s + (i + 1)] == read + [lines[s + i]];
    assert (read + [lines[s + i]])[..|read|] == read;
    AddAllSnoc(m, RangeEntries(objectFile, base, read), (RangeKey(objectFile, base, lines[s + i].from, lines[s + i].to), lines[s + i].count));
  }

  /// The range section whose count line is at `p`, read into `m`: the
  /// records read are added to it even when the section is cut short.
  method ReadRanges(objectFile: string, base: nat, lines: seq<Line>, p: nat, m: map<Range, nat>) returns (ok: bool, r: map<Range, nat>)
    requires p < |lines| && lines[p].CountLine?
    ensures ok == SectionAt(lines, p, RangeSection).1
    ensures r == AddAll(m, RangeEntries(objectFile, base, SectionAt(lines, p, RangeSection).0))
  {
    var numRecords := lines[p].n;
    var i := 0;
    r := m;
    while i < numRecords
      invariant i <= numRecords && RangesRead(objectFile, base, lines, p + 1, i, m, r)
    {
      var j := p + 1 + i;
      if j >= |lines| || !lines[j].RangeLine? {
        SectionStops(lines, p, RangeSection, i);
        return false, r;
      }
      var l := lines[j];
      var key := RangeKey(objectFile, base, l.from, l.to);
      RangeReadStep(objectFile, base, lines, p + 1, i, m, r);
      r := AddTo(r, key, l.count);
      i := i + 1;
    }
    SectionComplete(lines, p, RangeSection);
    return true, r;
  }

  /// After `i` address records from line `s`: all of them were address
  /// records, and `r` is `m` with their counts added.
  predicate AddressesRead(objectFile: string, base: nat, lines: seq<Line>, s: nat, i: nat, m: map<Loc, nat>, r: map<Loc, nat>)
  {
    s + i <= |lines| && AllFit(AddressSection, lines[s..s + i]) &&
    r == AddAll(m, AddressEntries(objectFile, base, lines[s..s + i]))
  }

  /// One more address record read: its count is added last.
  lemma AddressReadStep(objectFile: string, base: nat, lines: seq<Line>, s: nat, i: nat, m: map<Loc, nat>, r: map<Loc, nat>)
    requires AddressesRead(objectFile, base, lines, s, i, m, r) && s + i < |lines| && lines[s + i].AddressLine?
    ensures AddressesRead(objectFile, base, lines, s, i + 1, m, AddTo(r, AddressKey(objectFile, base, lines[s + i].addr), lines[s + i].count))
  {
    var read := lines[s..s + i];
    assert lines[s..s + (i + 1)] == read + [lines[s + i]];
    assert (read + [lines[s + i]])[..|read|] == read;
    AddAllSnoc(m, AddressEntries(objectFile, base, read), (AddressKey(objectFile, base, lines[s + i].addr), lines[s + i].count));
  }

  /// The address section whose count line is at `p`, read into `m`: the
  /// records read are added to it even when the section is cut short.
  method ReadAddresses(objectFile: string, base: nat, lines: seq<Line>, p: nat, m: map<Loc, nat>) returns (ok: bool, r: map<Loc, nat>)
    requires p < |lines| && lines[p].CountLine?
    ensures ok == SectionAt(lines, p, AddressSection).1
    ensures r == AddAll(m, AddressEntries(objectFile, base, SectionAt(lines, p, AddressSection).0))
  {
    var numRecords := lines[p].n;
    var i := 0;
    r := m;
    while i < numRecords
      invariant i <= numRecords && AddressesRead(objectFile, base, lines, p + 1, i, m, r)
    {
      var j := p + 1 + i;
      if j >= |lines| || !lines[j].AddressLine? {
        SectionStops(lines, p, AddressSection, i);
        return false, r;
      }
      var l := lines[j];
      var key := AddressKey(objectFile, base, l.addr);
      AddressReadStep(objectFile, base, lines, p + 1, i, m, r);
      r := AddTo(r, key, l.count);
      i := i + 1;
    }
    SectionComplete(lines, p, AddressSection);
    return true, r;
  }

  /// After `i` branch records from line `s`: all of them were branch
  /// records, and `r` is `m` with their counts added.
  predicate BranchesRead(objectFile: string, base: nat, lines: seq<Line>, s: nat, i: nat, m: map<Branch, nat>, r: map<Branch, nat>)
  {
    s + i <= |lines| && AllFit(BranchSection, lines[s..s + i]) &&
    r == AddAll(m, BranchEntries(objectFile, base, lines[s..s + i]))
  }

  /// One more branch record read: its count is added last.
  lemma BranchReadStep(objectFile: string, base: nat, lines: seq<Line>, s: nat, i: nat, m: map<Branch, nat>, r: map<Branch, nat>)
    requires BranchesRead(objectFile, base, lines, s, i, m, r) && s + i < |lines| && lines[s + i].BranchLine?
    ensures BranchesRead(objectFile, base, lines, s, i + 1, m, AddTo(r, BranchKey(objectFile, base, lines[s + i].from, lines[s + i].to), lines[s + i].count))
  {
    var read := lines[s..s + i];
    assert lines[s..s + (i + 1)] == read + [lines[s + i]];
    assert (read + [lines[s + i]])[..|read|] == read;
    AddAllSnoc(m, BranchEntries(objectFile, base, read), (BranchKey(objectFile, base, lines[s + i].from, lines[s + i].to), lines[s + i].count));
  }

  /// The branch section whose count line is at `p`, read into `m`: the
  /// records read are added to it even when the section is cut short.
  method ReadBranches(objectFile: string, base: nat, lines: seq<Line>, p: nat, m: map<Branch, nat>) returns (ok: bool, r: map<Branch, nat>)
    requires p < |lines| && lines[p].CountLine?
    ensures ok == SectionAt(lines, p, BranchSection).1
    ensures r == AddAll(m, BranchEntries(objectFile, base, SectionAt(lines, p, BranchSection).0))
  {
    var numRecords := lines[p].n;
    var i := 0;
    r := m;
    while i < numRecords
      invariant i <= numRecords && BranchesRead(objectFile, base, lines, p + 1, i, m, r)
    {
      var j := p + 1 + i;
      if j >= |lines| || !lines[j].BranchLine? {
        SectionStops(lines, p, BranchSection, i);
        return false, r;
      }
      var l := lines[j];
      var key := BranchKey(objectFile, base, l.from, l.to);
      BranchReadStep(objectFile, base, lines, p + 1, i, m, r);
      r := AddTo(r, key, l.count);
      i := i + 1;
    }
    SectionComplete(lines, p, BranchSection);
    return true, r;
  }

  /// No records read: every count map is left as it was.
  lemma NoEntries(objectFile: string, base: nat, rm: map<Range, nat>, am: map<Loc, nat>, bm: map<Branch, nat>)
    ensures AddAll(rm, RangeEntries(objectFile, base, [])) == rm
    ensures AddAll(am, AddressEntries(objectFile, base, [])) == am
    ensures AddAll(bm, BranchEntries(objectFile, base, [])) == bm
  {
  }

  /// TextSampleReaderWriter: the three count maps of one object file.
  class TextSampleReaderWriter {
    const objectFile: string
    /// The object file's preferred base address.
    const base: nat
    var rangeCount: map<Range, nat>
    var addressCount: map<Loc, nat>
    var branchCount: map<Branch, nat>
    var totalCount: nat

    constructor (objectFile: string, base: nat)
      ensures this.objectFile == objectFile && this.base == base
      ensures rangeCount == map[] && addressCount == map[] && branchCount == map[] && totalCount == 0
    {
      this.objectFile := objectFile;
      this.base := base;
      rangeCount := map[];
      addressCount := map[];
      branchCount := map[];
      totalCount := 0;
    }

    /// readProfile: `file` is None when the profile cannot be opened. On
    /// success total_count_ is recomputed; on failure the records read so
    /// far stay in the maps.
    method ReadProfile(file: Option<seq<Line>>) returns (ok: bool)
      modifies this
      ensures file.None? ==>
        (!ok && rangeCount == old(rangeCount) && addressCount == old(addressCount) &&
         branchCount == old(branchCount) && totalCount == old(totalCount))
      ensures file.Some? ==>
        var r := ReadSpec(file.value);
        ok == r.ok &&
        rangeCount == AddAll(old(rangeCount), RangeEntries(objectFile, base, r.ranges)) &&
        addressCount == AddAll(old(addressCount), AddressEntries(objectFile, base, r.addresses)) &&
        branchCount == AddAll(old(branchCount), BranchEntries(objectFile, base, r.branches))
      ensures ok ==> totalCount == TotalCount(rangeCount, addressCount)
      ensures !ok ==> totalCount == old(totalCount)
    {
      if file.None? {
        return false;
      }
      ok := ReadSections(file.value);
      if !ok {
        return false;
      }
      var total;
      if |rangeCount| > 0 {
        total := SumWeighted(rangeCount);
      } else {
        total := SumValues(addressCount);
      }
      totalCount := total;
      return true;
    }

    /// The three sections of readProfile in turn, each read only when the
    /// ones before it were read whole and it starts with a count line.
    method ReadSections(lines: seq<Line>) returns (ok: bool)
      modifies this
      ensures var r := ReadSpec(lines);
        ok == r.ok &&
        rangeCount == AddAll(old(rangeCount), RangeEntries(objectFile, base, r.ranges)) &&
        addressCount == AddAll(old(addressCount), AddressEntries(objectFile, base, r.addresses)) &&
        branchCount == AddAll(old(branchCount), BranchEntries(objectFile, base, r.branches))
      ensures totalCount == old(totalCount)
    {
      ghost var spec := ReadSpec(lines);
      if |lines| == 0 || !lines[0].CountLine? {
        assert spec == Parsed([], [], [], false);
        NoEntries(objectFile, base, old(rangeCount), old(addressCount), old(branchCount));
        return false;
      }
      var rangesOk;
      rangesOk, rangeCount := ReadRanges(objectFile, base, lines, 0, rangeCount);
      ghost var ranges := SectionAt(lines, 0, RangeSection).0;
      if !rangesOk {
        assert spec == Parsed(ranges, [], [], false);
        NoEntries(objectFile, base, old(rangeCount), old(addressCount), old(branchCount));
        return false;
      }
      var p := 1 + lines[0].n;
      if p >= |lines| || !lines[p].CountLine? {
        assert spec == Parsed(ranges, [], [], false);
        NoEntries(objectFile, base, old(rangeCount), old(addressCount), old(branchCount));
        return false;
      }
      var addressesOk;
      addressesOk, addressCount := ReadAddresses(objectFile, base, lines, p, addressCount);
      ghost var addresses := SectionAt(lines, p, AddressSection).0;
      if !addressesOk {
        assert spec == Parsed(ranges, addresses, [], false);
        NoEntries(objectFile, base, old(rangeCount), old(addressCount), old(branchCount));
        return false;
      }
      var q := p + 1 + lines[p].n;
      if q >= |lines| || !lines[q].CountLine? {
        assert spec == Parsed(ranges, addresses, [], false);
        NoEntries(objectFile, base, old(rangeCount), old(addressCount), old(branchCount));
        return false;
      }
      ok, branchCount := ReadBranches(objectFile, base, lines, q, branchCount);
      ReadSpecWhole(lines, p, q);
    }

    /// GetTotalSampleCount: the plain sum of the range counts when there is
    /// any range, the sum of the address counts otherwise.
    method GetTotalSampleCount() returns (r: nat)
      ensures r == (if |rangeCount| > 0 then ValueSum(rangeCount) else ValueSum(addressCount)) % U64_MOD
    {
      if |rangeCount| > 0 {
        r := SumValues(rangeCount);
      } else {
        r := SumValues(addressCount);
      }
    }
  }

  /// total_count_: count times width summed over the ranges when there is
  /// any range, the sum of the address counts otherwise, both modulo 2^64.
  ghost function TotalCount(ranges: map<Range, nat>, addresses: map<Loc, nat>): int
  {
    (if |ranges| > 0 then WeightedSum(ranges) else ValueSum(addresses)) % U64_MOD
  }

  /// Reading a well-formed profile into empty maps: the sample total is the
  /// sum of the range records' counts, or of the address records' counts
  /// when the file has no range record.
  lemma TotalSampleCountOfProfile(objectFile: string, base: nat, ranges: seq<Line>, addresses: seq<Line>)
    requires AllFit(RangeSection, ranges) && AllFit(AddressSection, addresses)
    ensures var rs := AddAll(map[], RangeEntries(objectFile, base, ranges));
      var ads := AddAll(map[], AddressEntries(objectFile, base, addresses));
      (if |rs| > 0 then ValueSum(rs) else ValueSum(ads)) ==
      (if |ranges| > 0 then TotalOf(RangeEntries(objectFile, base, ranges)) else TotalOf(AddressEntries(objectFile, base, addresses)))
  {
    var es := RangeEntries(objectFile, base, ranges);
    AddAllValueSum(map[], es);
    AddAllValueSum(map[], AddressEntries(objectFile, base, addresses));
    var noRanges: map<Range, nat> := map[];
    var noAddresses: map<Loc, nat> := map[];
    assert ValueSum(noRanges) == 0 && ValueSum(noAddresses) == 0;
    if |ranges| > 0 {
      AddAllAt(map[], es, es[0].0);
    } else {
      assert AddAll(map[], es) == map[];
    }
  }
}
