// The `--analyze` mode of llvm-dwarfdump: the orderings that key its maps
// of declaration contexts and type records, the declaration-context list,
// section-name and address-range helpers, and the directory size tree that
// attributes compile-unit sizes to the directories of their source paths.
module DwarfAnalyze {
  import opened Util

  // ---------------------------------------------------------------------
  // Declaration contexts

  /// `DW_TAG_null`, the tag of a default-constructed context.
  const TAG_NULL: nat := 0

  /// One level of a declaration context: a DWARF tag and a short name.
  datatype DeclContext = DeclContext(tag: nat, name: string)

  /// The default-constructed context: tag `DW_TAG_null`, empty name.
  const NullContext: DeclContext := DeclContext(TAG_NULL, "")

  /// `DWARFDeclContext::operator==`: the same tag and the same name.
  predicate ContextEquals(a: DeclContext, b: DeclContext)
    ensures ContextEquals(a, b) <==> a == b
  {
    a.tag == b.tag && a.name == b.name
  }

  /// `DWARFDeclContext::operator<`: by tag, then by name.
  predicate ContextLess(a: DeclContext, b: DeclContext)
  {
    if a.tag == b.tag then StrLess(a.name, b.name) else a.tag < b.tag
  }

  /// The order is a strict total order whose equivalence is equality, so it
  /// keys a `std::map` without merging distinct contexts.
  lemma ContextLessStrictTotal(a: DeclContext, b: DeclContext, c: DeclContext)
    ensures !ContextLess(a, a)
    ensures ContextLess(a, b) && ContextLess(b, c) ==> ContextLess(a, c)
    ensures a != b <==> ContextLess(a, b) || ContextLess(b, a)
    ensures ContextLess(a, b) ==> !ContextLess(b, a)
  {
    StrLessIrreflexive(a.name);
    if ContextLess(a, b) && ContextLess(b, c) && a.tag == b.tag && b.tag == c.tag {
      StrLessTransitive(a.name, b.name, c.name);
    }
    if a != b && a.tag == b.tag {
      StrLessTotal(a.name, b.name);
    }
    if ContextLess(a, b) && a.tag == b.tag {
      StrLessAsymmetric(a.name, b.name);
    }
  }

  /// `DIEDeclContext::operator[]`: the context at `index`, or the default
  /// context past the end.
  function ContextAt(contexts: seq<DeclContext>, index: nat): DeclContext
  {
    if index < |contexts| then contexts[index] else NullContext
  }

  /// `DIEDeclContext::pop_front` on values: the first context (or the
  /// default) and what remains.
  function Popped(contexts: seq<DeclContext>): (r: (DeclContext, seq<DeclContext>))
    ensures r.0 == ContextAt(contexts, 0)
    ensures |contexts| > 0 ==> [r.0] + r.1 == contexts
    ensures |contexts| == 0 ==> r.1 == []
  {
    if |contexts| == 0 then (NullContext, []) else (contexts[0], contexts[1..])
  }

  /// After a pop, index `i` reads what index `i + 1` read before.
  lemma PopFrontShifts(contexts: seq<DeclContext>, i: nat)
    ensures ContextAt(Popped(contexts).1, i) == ContextAt(contexts, i + 1)
  {
  }

  /// `n` successive pops.
  function PopMany(contexts: seq<DeclContext>, n: nat): seq<DeclContext>
    decreases n
  {
    if n == 0 then [] else [Popped(contexts).0] + PopMany(Popped(contexts).1, n - 1)
  }

  /// Popping `n` times yields the contexts outermost first, then defaults
  /// once the list is exhausted.
  lemma {:induction false} PopManyInOrder(contexts: seq<DeclContext>, n: nat)
    ensures |PopMany(contexts, n)| == n
    ensures forall i | 0 <= i < n :: PopMany(contexts, n)[i] == ContextAt(contexts, i)
    decreases n
  {
    if n > 0 {
      PopManyInOrder(Popped(contexts).1, n - 1);
      forall i | 0 <= i < n
        ensures PopMany(contexts, n)[i] == ContextAt(contexts, i)
      {
        if i > 0 {
          PopFrontShifts(contexts, i - 1);
        }
      }
    }
  }

  /// A DIE's chain of enclosing declaration contexts, outermost first, that
  /// the analysis consumes from the front.
  class DeclContextList {
    var contexts: seq<DeclContext>

    constructor (chain: seq<DeclContext>)
      ensures contexts == chain
    {
      contexts := chain;
    }

    function Get(index: nat): (r: DeclContext)
      reads this
      ensures index < |contexts| ==> r == contexts[index]
      ensures index >= |contexts| ==> r == NullContext
    {
      ContextAt(contexts, index)
    }

    method PopFront() returns (front: DeclContext)
      modifies this
      ensures (front, contexts) == Popped(old(contexts))
    {
      front := NullContext;
      if |contexts| > 0 {
        front := contexts[0];
        contexts := contexts[1..];
      }
    }
  }

  // ---------------------------------------------------------------------
  // Type records

  /// `DIETypeInfo`: where a type is declared and its byte size.
  datatype TypeKey = TypeKey(file: string, size: nat, line: nat)

  /// `DIETypeInfo::operator==`: same size, line and file.
  predicate TypeKeyEquals(a: TypeKey, b: TypeKey)
    ensures TypeKeyEquals(a, b) <==> a == b
  {
    a.size == b.size && a.line == b.line && a.file == b.file
  }

  /// `DIETypeInfo::operator<`: by size, then line, then file.
  predicate TypeKeyLess(a: TypeKey, b: TypeKey)
  {
    if a.size != b.size then a.size < b.size
    else if a.line != b.line then a.line < b.line
    else StrLess(a.file, b.file)
  }

  lemma TypeKeyLessStrictTotal(a: TypeKey, b: TypeKey, c: TypeKey)
    ensures !TypeKeyLess(a, a)
    ensures TypeKeyLess(a, b) && TypeKeyLess(b, c) ==> TypeKeyLess(a, c)
    ensures a != b <==> TypeKeyLess(a, b) || TypeKeyLess(b, a)
    ensures TypeKeyLess(a, b) ==> !TypeKeyLess(b, a)
  {
    StrLessIrreflexive(a.file);
    if TypeKeyLess(a, b) && TypeKeyLess(b, c) && a.size == b.size == c.size && a.line == b.line == c.line {
      StrLessTransitive(a.file, b.file, c.file);
    }
    if a != b && a.size == b.size && a.line == b.line {
      StrLessTotal(a.file, b.file);
    }
    if TypeKeyLess(a, b) && a.size == b.size && a.line == b.line {
      StrLessAsymmetric(a.file, b.file);
    }
  }

  // ---------------------------------------------------------------------
  // Sections and address ranges

  /// Sections holding debug information, by name prefix.
  predicate IsDwarfSectionName(name: string)
  {
    StartsWith(name, ".debug") || StartsWith(name, "__debug") ||
    StartsWith(name, ".apple") || StartsWith(name, "__apple")
  }

  /// `name` is `p`, then `q`, then anything.
  predicate SplitsAs(name: string, p: string, q: string)
  {
    StartsWith(name, p) && StartsWith(name[|p|..], q)
  }

  /// Every name made of a "." or "__" prefix followed by "debug" or "apple"
  /// is a debug section name.
  lemma SplitIsDwarfSectionName(name: string, p: string, q: string)
    requires (p == "." || p == "__") && (q == "debug" || q == "apple")
    requires SplitsAs(name, p, q)
    ensures IsDwarfSectionName(name)
  {
    assert name[..|p| + |q|] == p + q by {
      assert name[..|p| + |q|][..|p|] == name[..|p|];
      assert name[..|p| + |q|][|p|..] == name[|p|..][..|q|];
    }
  }

  /// Conversely, a debug section name splits into such a prefix and word.
  lemma IsDwarfSectionNameSplits(name: string)
    requires IsDwarfSectionName(name)
    ensures SplitsAs(name, ".", "debug") || SplitsAs(name, "__", "debug") ||
            SplitsAs(name, ".", "apple") || SplitsAs(name, "__", "apple")
  {
    if StartsWith(name, ".debug") || StartsWith(name, ".apple") {
      assert name[..1] == name[..6][..1];
      assert name[1..][..5] == name[..6][1..];
    } else {
      assert name[..2] == name[..7][..2];
      assert name[2..][..5] == name[..7][2..];
    }
  }

  /// An address range `[low, high)`; an inverted or empty range holds no
  /// address.
  datatype AddressRange = AddressRange(low: nat, high: nat)

  predicate InRange(r: AddressRange, addr: nat)
  {
    r.low <= addr < r.high
  }

  /// `llvm::find_if` over the ranges from `i` on: the first index whose range
  /// holds `addr`, or `|ranges|` when there is none.
  function FindRange(ranges: seq<AddressRange>, addr: nat, i: nat): (r: nat)
    requires i <= |ranges|
    ensures i <= r <= |ranges|
    ensures r < |ranges| ==> InRange(ranges[r], addr)
    ensures forall j | i <= j < r :: !InRange(ranges[j], addr)
    decreases |ranges| - i
  {
    if i == |ranges| then i
    else if InRange(ranges[i], addr) then i
    else FindRange(ranges, addr, i + 1)
  }

  /// `DWARFStatistics::containsTextAddress`: with no text ranges every
  /// address counts as text; otherwise some range must hold it.
  function ContainsTextAddress(textRanges: seq<AddressRange>, addr: nat): (r: bool)
    ensures r <==> |textRanges| == 0 || exists i | 0 <= i < |textRanges| :: InRange(textRanges[i], addr)
  {
    |textRanges| == 0 || FindRange(textRanges, addr, 0) < |textRanges|
  }

  /// The bytes a range covers; an empty or inverted range covers none.
  function Width(r: AddressRange): nat
  {
    if r.low < r.high then r.high - r.low else 0
  }

  /// The bytes the ranges cover together, counting overlaps twice, in
  /// unbounded arithmetic.
  function RangeTotal(ranges: seq<AddressRange>): nat
  {
    if |ranges| == 0 then 0 else RangeTotal(ranges[..|ranges| - 1]) + Width(ranges[|ranges| - 1])
  }

  /// The total distributes over concatenation.
  lemma {:induction false} RangeTotalAppend(a: seq<AddressRange>, b: seq<AddressRange>)
    ensures RangeTotal(a + b) == RangeTotal(a) + RangeTotal(b)
    decreases |b|
  {
    if |b| > 0 {
      assert (a + b)[..|a + b| - 1] == a + b[..|b| - 1];
      assert (a + b)[|a + b| - 1] == b[|b| - 1];
      RangeTotalAppend(a, b[..|b| - 1]);
    } else {
      assert a + b == a;
    }
  }

  /// The ranges that cover at least one byte.
  function NonEmpty(ranges: seq<AddressRange>): (r: seq<AddressRange>)
    ensures forall i | 0 <= i < |r| :: r[i].low < r[i].high
  {
    if |ranges| == 0 then []
    else if ranges[|ranges| - 1].low < ranges[|ranges| - 1].high then NonEmpty(ranges[..|ranges| - 1]) + [ranges[|ranges| - 1]]
    else NonEmpty(ranges[..|ranges| - 1])
  }

  /// Empty and inverted ranges contribute nothing: dropping them keeps the
  /// total.
  lemma {:induction false} RangeTotalIgnoresEmpty(ranges: seq<AddressRange>)
    ensures RangeTotal(NonEmpty(ranges)) == RangeTotal(ranges)
  {
    if |ranges| > 0 {
      var init := ranges[..|ranges| - 1];
      RangeTotalIgnoresEmpty(init);
      RangeTotalAppend(NonEmpty(init), [ranges[|ranges| - 1]]);
      assert [ranges[|ranges| - 1]][..0] == [];
    }
  }

  /// `CalculateDieRangeSize` over a DIE's range list: the covered bytes,
  /// accumulated in a 64-bit counter.
  method CalculateDieRangeSize(ranges: seq<AddressRange>) returns (size: nat)
    ensures size == RangeTotal(ranges) % U64_MOD
  {
    size := 0;
    for i := 0 to |ranges|
      invariant size == RangeTotal(ranges[..i]) % U64_MOD
    {
      assert ranges[..i + 1][..i] == ranges[..i];
      assert RangeTotal(ranges[..i + 1]) == RangeTotal(ranges[..i]) + Width(ranges[i]);
      ModAddLeft(RangeTotal(ranges[..i]), Width(ranges[i]));
      if ranges[i].low < ranges[i].high {
        size := (size + (ranges[i].high - ranges[i].low)) % U64_MOD;
      } else {
        assert size == (size + Width(ranges[i])) % U64_MOD;
      }
    }
    assert ranges[..|ranges|] == ranges;
  }

  // ---------------------------------------------------------------------
  // The directory size tree

  /// `DirInfo`: a path component, the bytes attributed to it and its
  /// children by component. Children are held by value, as in the
  /// `std::map` of the original.
  datatype Dir = Dir(component: string, size: nat, children: map<string, Dir>)

  /// A fresh node for a component.
  function NewDir(component: string): Dir
  {
    Dir(component, 0, map[])
  }

  /// `DirInfo::_insert`: `s` is added to the node and, creating missing
  /// children, to every node along `comps`.
  function InsertAt(d: Dir, comps: seq<string>, s: nat): (r: Dir)
    ensures r.component == d.component && r.size == d.size + s
    decreases |comps|
  {
    if |comps| == 0 then d.(size := d.size + s)
    else
      var c := comps[0];
      var child := if c in d.children then d.children[c] else NewDir(c);
      d.(size := d.size + s, children := d.children[c := InsertAt(child, comps[1..], s)])
  }

  /// The node reached from `d` by following `path`, if any.
  function Find(d: Dir, path: seq<string>): Option<Dir>
    decreases |path|
  {
    if |path| == 0 then Some(d)
    else if path[0] in d.children then Find(d.children[path[0]], path[1..])
    else None
  }

  /// The size of the node at `path`, 0 if there is none.
  function SizeAt(d: Dir, path: seq<string>): nat
  {
    match Find(d, path)
    case Some(n) => n.size
    case None => 0
  }

  predicate IsPrefix(p: seq<string>, q: seq<string>)
  {
    |p| <= |q| && q[..|p|] == p
  }

  /// Inserting along `comps` creates every node on the path and adds `s` to
  /// each of them; every other node is left exactly as it was.
  lemma {:induction false} InsertAtAlongPath(d: Dir, comps: seq<string>, s: nat, p: seq<string>)
    ensures IsPrefix(p, comps) ==>
      Find(InsertAt(d, comps, s), p).Some? && SizeAt(InsertAt(d, comps, s), p) == SizeAt(d, p) + s
    ensures !IsPrefix(p, comps) ==> Find(InsertAt(d, comps, s), p) == Find(d, p)
    decreases |p|
  {
    if |p| > 0 && |comps| > 0 && p[0] == comps[0] {
      var c := comps[0];
      var child := if c in d.children then d.children[c] else NewDir(c);
      InsertAtAlongPath(child, comps[1..], s, p[1..]);
      assert IsPrefix(p, comps) <==> IsPrefix(p[1..], comps[1..]);
      if c !in d.children && |p| > 1 {
        assert Find(child, p[1..]) == None;
      }
    }
  }

  /// Components the insertion skips at the head of a path.
  predicate IsSeparator(c: string)
  {
    c == "" || c == "/"
  }

  /// The number of leading separator components.
  function LeadingSeparators(path: seq<string>): (n: nat)
    ensures n <= |path|
    ensures forall j | 0 <= j < n :: IsSeparator(path[j])
    ensures n < |path| ==> !IsSeparator(path[n])
  {
    if |path| > 0 && IsSeparator(path[0]) then 1 + LeadingSeparators(path[1..]) else 0
  }

  /// The bytes attributed to the children of a node.
  function ChildSize(children: map<string, Dir>, k: string): int
  {
    if k in children then children[k].size else 0
  }

  function ChildSizes(d: Dir): string -> int
  {
    k => ChildSize(d.children, k)
  }

  ghost function ChildSum(d: Dir): int
  {
    SetSum(d.children.Keys, ChildSizes(d))
  }

  /// Every node is keyed by its own component and holds at least the bytes
  /// of its children together.
  ghost predicate Consistent(d: Dir)
  {
    ChildSum(d) <= d.size &&
    forall k | k in d.children :: d.children[k].component == k && Consistent(d.children[k])
  }

  lemma NewDirConsistent(c: string)
    ensures Consistent(NewDir(c))
  {
    assert ChildSum(NewDir(c)) == 0;
  }

  /// Insertion adds `s` to the children's total exactly when the path
  /// goes on below the node.
  lemma ChildSumInsertAt(d: Dir, comps: seq<string>, s: nat)
    ensures ChildSum(InsertAt(d, comps, s)) == ChildSum(d) + (if |comps| == 0 then 0 else s)
  {
    var r := InsertAt(d, comps, s);
    var fd := ChildSizes(d);
    var fr := ChildSizes(r);
    if |comps| == 0 {
      SetSumCongruent(d.children.Keys, fr, fd);
    } else {
      var c := comps[0];
      SetSumCongruent(d.children.Keys - {c}, fr, fd);
      if c in d.children {
        assert r.children.Keys == d.children.Keys;
        assert fr(c) == fd(c) + s;
        SetSumRemove(r.children.Keys, c, fr);
        SetSumRemove(d.children.Keys, c, fd);
      } else {
        assert r.children.Keys == d.children.Keys + {c};
        assert d.children.Keys - {c} == d.children.Keys;
        SetSumAdd(d.children.Keys, c, fr);
      }
    }
  }

  /// Insertion keeps every node at least as large as its children together.
  lemma {:induction false} InsertAtConsistent(d: Dir, comps: seq<string>, s: nat)
    requires Consistent(d)
    ensures Consistent(InsertAt(d, comps, s))
    decreases |comps|
  {
    ChildSumInsertAt(d, comps, s);
    if |comps| > 0 {
      var c := comps[0];
      var child := if c in d.children then d.children[c] else NewDir(c);
      NewDirConsistent(c);
      InsertAtConsistent(child, comps[1..], s);
    }
  }

  /// `n` insertions, each a path and a size.
  function InsertAll(d: Dir, inserts: seq<(seq<string>, nat)>): Dir
    decreases |inserts|
  {
    if |inserts| == 0 then d
    else InsertAll(InsertAt(d, inserts[0].0, inserts[0].1), inserts[1..])
  }

  function TotalInserted(inserts: seq<(seq<string>, nat)>): nat
  {
    if |inserts| == 0 then 0 else inserts[0].1 + TotalInserted(inserts[1..])
  }

  /// The root of a tree built from a fresh node holds the sum of every
  /// inserted size, and the tree stays consistent.
  lemma {:induction false} InsertAllTotals(d: Dir, inserts: seq<(seq<string>, nat)>)
    requires Consistent(d)
    ensures InsertAll(d, inserts).size == d.size + TotalInserted(inserts)
    ensures Consistent(InsertAll(d, inserts))
    decreases |inserts|
  {
    if |inserts| > 0 {
      InsertAtConsistent(d, inserts[0].0, inserts[0].1);
      InsertAllTotals(InsertAt(d, inserts[0].0, inserts[0].1), inserts[1..]);
    }
  }

  /// The directory tree of the analysis, rooted at an unnamed node.
  class DirTree {
    var root: Dir

    constructor ()
      ensures root == NewDir("")
    {
      root := NewDir("");
    }

    /// `DirInfo::insert`: leading empty or "/" components are skipped, the
    /// rest of the path receives `s`.
    method Insert(path: seq<string>, s: nat)
      modifies this
      ensures root == InsertAt(old(root), path[LeadingSeparators(path)..], s)
    {
      var i := 0;
      while i < |path| && IsSeparator(path[i])
        invariant i <= |path|
        invariant forall j | 0 <= j < i :: IsSeparator(path[j])
      {
        i := i + 1;
      }
      assert i == LeadingSeparators(path) by {
        LeadingSeparatorsUnique(path, i);
      }
      root := InsertAt(root, path[i..], s);
    }
  }

  /// The leading separator count is the only index that starts a
  /// non-separator after separators only.
  lemma {:induction false} LeadingSeparatorsUnique(path: seq<string>, i: nat)
    requires i <= |path|
    requires forall j | 0 <= j < i :: IsSeparator(path[j])
    requires i < |path| ==> !IsSeparator(path[i])
    ensures i == LeadingSeparators(path)
  {
  }
}
