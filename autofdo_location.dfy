// AutoFDO's addressing vocabulary: an instruction location is an offset in an
// object file; a range runs from one location to another; a branch joins a
// source instruction to its target.
module AutofdoLocation {
  import opened Util

  datatype Loc = Loc(objectFile: string, offset: nat)

  /// Locations are ordered by object file name, then by offset.
  predicate LocLess(a: Loc, b: Loc)
  {
    StrLess(a.objectFile, b.objectFile) || (a.objectFile == b.objectFile && a.offset < b.offset)
  }

  predicate LocLe(a: Loc, b: Loc)
  {
    a == b || LocLess(a, b)
  }

  lemma LocLessIrreflexive(a: Loc)
    ensures !LocLess(a, a)
  {
    StrLessIrreflexive(a.objectFile);
  }

  lemma LocLessTransitive(a: Loc, b: Loc, c: Loc)
    requires LocLess(a, b) && LocLess(b, c)
    ensures LocLess(a, c)
  {
    if StrLess(a.objectFile, b.objectFile) && StrLess(b.objectFile, c.objectFile) {
      StrLessTransitive(a.objectFile, b.objectFile, c.objectFile);
    }
  }

  /// Two different locations are always ordered one way or the other.
  lemma LocLessTotal(a: Loc, b: Loc)
    requires a != b
    ensures LocLess(a, b) || LocLess(b, a)
  {
    if a.objectFile != b.objectFile {
      StrLessTotal(a.objectFile, b.objectFile);
    }
  }

  lemma LocLessAsymmetric(a: Loc, b: Loc)
    requires LocLess(a, b)
    ensures !LocLess(b, a)
  {
    if StrLess(a.objectFile, b.objectFile) {
      StrLessAsymmetric(a.objectFile, b.objectFile);
    } else {
      StrLessIrreflexive(a.objectFile);
    }
  }

  /// A half-open range of instructions [begin, end).
  datatype Range = Range(begin: Loc, end: Loc)

  /// A taken branch: `instruction` jumped to `target`.
  datatype Branch = Branch(instruction: Loc, target: Loc)
}
