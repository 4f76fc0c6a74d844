// llvm-memaccess's analysis script: the type table built from the DWARF type
// dumps, the merging of the records different files give for one type, the
// attribution of profiled loads and stores to the fields they overlap, and
// the recovery of unknown field sizes.
module MemaccessTypes {
  import opened Util

  /// A member of a composite type. `size` is in bytes, -1 while unknown;
  /// `typ` names the member's type in the table (every member read from a
  /// dump has one: a missing base type is registered as a placeholder).
  datatype Field = Field(name: string, typ: string, isArray: bool, offset: int, size: int,
                         offsetBits: nat, sizeBits: Option<nat>, readCount: int, writeCount: int)

  /// A type record: its identifier, kind ("struct", "class", "union",
  /// "enum", "placeholder", ...), where it was declared, whether it follows
  /// the one-definition rule, whether it is only a declaration, its size in
  /// bytes if known, its load and store counters and its members.
  datatype TypeInfo = TypeInfo(ident: string, kind: string, file: string, dwarfFile: Option<string>,
                               line: Option<int>, odr: bool, decl: bool, size: Option<nat>,
                               readCount: int, writeCount: int, fields: seq<Field>)

  /// A fresh member: no accesses counted yet.
  function NewField(name: string, typ: string, isArray: bool, offset: int, size: int,
                    offsetBits: nat, sizeBits: Option<nat>): Field
  {
    Field(name, typ, isArray, offset, size, offsetBits, sizeBits, 0, 0)
  }

  /// A fresh type record: no size, no counts, no members yet.
  function NewTypeInfo(ident: string, kind: string, file: string, line: Option<int>, odr: bool, decl: bool): TypeInfo
  {
    TypeInfo(ident, kind, file, None, line, odr, decl, None, 0, 0, [])
  }

  // ---------------------------------------------------------------------
  // Sizes read from the dump

  /// A member's byte offset: the byte holding its first bit.
  function FieldOffsetOf(offsetBits: nat): nat
  {
    offsetBits / 8
  }

  /// A member's byte size: unknown (-1) without a bit size, 0 for a
  /// zero-bit member, otherwise the number of bytes its bits touch
  /// starting at its first byte.
  function FieldSizeOf(offsetBits: nat, sizeBits: Option<nat>): int
  {
    match sizeBits
    case None => -1
    case Some(b) => if b == 0 then 0 else (7 + offsetBits % 8 + b) / 8
  }

  /// The bytes [offset, offset + size) are the fewest whole bytes that
  /// hold every bit of the member.
  lemma FieldBytesCoverBits(offsetBits: nat, b: nat)
    requires b > 0
    ensures FieldSizeOf(offsetBits, Some(b)) >= 1
    ensures 8 * FieldOffsetOf(offsetBits) <= offsetBits < 8 * FieldOffsetOf(offsetBits) + 8
    ensures offsetBits + b <= 8 * (FieldOffsetOf(offsetBits) + FieldSizeOf(offsetBits, Some(b)))
    ensures 8 * (FieldOffsetOf(offsetBits) + FieldSizeOf(offsetBits, Some(b)) - 1) < offsetBits + b
  {
    var o := offsetBits / 8;
    var m := offsetBits % 8;
    assert offsetBits == 8 * o + m;
    var r := (7 + m + b) / 8;
    assert 8 * r <= 7 + m + b < 8 * r + 8;
  }

  /// A type's byte size: known only when its bit size is a whole number of
  /// bytes; a ragged bit size is ignored.
  function TypeSizeOf(sizeBits: Option<nat>): (r: Option<nat>)
    ensures r.Some? <==> sizeBits.Some? && sizeBits.value % 8 == 0
    ensures r.Some? ==> 8 * r.value == sizeBits.value
  {
    match sizeBits
    case None => None
    case Some(b) => if b % 8 != 0 then None else Some(b / 8)
  }

  // ---------------------------------------------------------------------
  // Abbreviated file names in the progress line

  /// The first `n` characters, or all of a shorter string.
  function HeadOf(s: string, n: nat): string
  {
    if n <= |s| then s[..n] else s
  }

  /// A negative-index slice from the end: the last `n` characters, all of a
  /// shorter string -- and, since minus zero is zero, all of the string when
  /// `n` is 0.
  function TailFrom(s: string, n: nat): string
  {
    if n == 0 || |s| < n then s else s[|s| - n..]
  }

  /// The name as the progress line prints it, as written: kept when at
  /// most prefixMax + suffixMax - 2 long, otherwise its head, "..", and its
  /// tail.
  function ShortenAsWritten(s: string, prefixMax: nat, suffixMax: nat): string
  {
    if |s| <= prefixMax + suffixMax - 2 then s
    else HeadOf(s, prefixMax) + ".." + TailFrom(s, suffixMax)
  }

  /// A name just over the threshold comes out longer than it went in: head,
  /// "..", and tail add up to prefixMax + suffixMax + 2 characters.
  lemma ShortenAsWrittenLengthens(s: string, prefixMax: nat, suffixMax: nat)
    requires prefixMax + suffixMax - 2 < |s| < prefixMax + suffixMax + 2
    requires prefixMax <= |s| && 1 <= suffixMax <= |s|
    ensures |ShortenAsWritten(s, prefixMax, suffixMax)| == prefixMax + suffixMax + 2 > |s|
  {
  }

  /// The call the progress line makes, with a 49-character name: the
  /// "shortened" name has 52 characters, and its head and tail repeat the
  /// name's middle.
  lemma ShortenAsWrittenExample()
    ensures var s := seq(49, i => if i < 20 then 'a' else 'b');
      |ShortenAsWritten(s, 10, 40)| == 52 > |s|
  {
  }

  /// The evident intent: keep a name that is no longer than its shortened
  /// form would be, otherwise keep its first prefixMax and last suffixMax
  /// characters around "..".
  function Shorten(s: string, prefixMax: nat, suffixMax: nat): (r: string)
    ensures |r| <= |s|
    ensures r == s <==> |s| <= prefixMax + suffixMax + 2
    ensures r != s ==>
      (|r| == prefixMax + suffixMax + 2 && r[..prefixMax] == s[..prefixMax] &&
       r[prefixMax..prefixMax + 2] == ".." && r[prefixMax + 2..] == s[|s| - suffixMax..])
  {
    if |s| <= prefixMax + suffixMax + 2 then s
    else
      var r := s[..prefixMax] + ".." + s[|s| - suffixMax..];
      assert |r| < |s|;
      r
  }

  // ---------------------------------------------------------------------
  // Merging the records of one type

  /// Folding `other`, a record for the same type, into `self`: the
  /// description and members come from `other`, its size too if it has
  /// one, and the counters add up.
  function MergeFrom(self: TypeInfo, other: TypeInfo): TypeInfo
    requires self.ident == other.ident
  {
    self.(kind := other.kind, dwarfFile := other.dwarfFile, file := other.file, line := other.line,
          odr := other.odr, decl := other.decl,
          size := if other.size.Some? then other.size else self.size,
          readCount := self.readCount + other.readCount, writeCount := self.writeCount + other.writeCount,
          fields := other.fields)
  }

  type Types = map<string, TypeInfo>

  /// Every record is filed under its own identifier.
  predicate Keyed(types: Types)
  {
    forall k | k in types :: types[k].ident == k
  }

  /// Registering a record read from a dump, with the checks as written.
  function MergeTypesSpec(types: Types, info: TypeInfo): Types
    requires Keyed(types)
  {
    var ident := info.ident;
    if ident !in types then types[ident := info]
    else if info.kind == "placeholder" || info.decl then types
    else
      var existing := types[ident];
      if existing.kind == "placeholder" then
        if info.kind != "placeholder" then types[ident := MergeFrom(existing, info)] else types
      else if existing.decl then
        if !info.decl then types[ident := MergeFrom(existing, info)] else types
      else if info.decl then types
      else types[ident := MergeFrom(existing, info)]
  }

  /// A record is dropped when its type is already registered and it is
  /// only a placeholder or a declaration.
  predicate Ignored(types: Types, info: TypeInfo)
  {
    info.ident in types && (info.kind == "placeholder" || info.decl)
  }

  /// What registering does: a new type is stored, a placeholder or a
  /// declaration of a known type is dropped, and anything else -- a
  /// definition, whether the stored record is a placeholder, a declaration
  /// or a definition -- is merged into the stored record.
  lemma MergeTypesCases(types: Types, info: TypeInfo)
    requires Keyed(types)
    ensures info.ident !in types ==> MergeTypesSpec(types, info) == types[info.ident := info]
    ensures Ignored(types, info) ==> MergeTypesSpec(types, info) == types
    ensures info.ident in types && !Ignored(types, info) ==>
      MergeTypesSpec(types, info) == types[info.ident := MergeFrom(types[info.ident], info)]
  {
  }

  /// Registering keeps every record under its own identifier, and the
  /// table gains the new identifier and loses none.
  lemma MergeTypesKeyed(types: Types, info: TypeInfo)
    requires Keyed(types)
    ensures Keyed(MergeTypesSpec(types, info))
    ensures MergeTypesSpec(types, info).Keys == types.Keys + {info.ident}
  {
  }

  ghost function ReadsOf(types: Types): int
  {
    SetSum(types.Keys, k => if k in types then types[k].readCount else 0)
  }

  ghost function WritesOf(types: Types): int
  {
    SetSum(types.Keys, k => if k in types then types[k].writeCount else 0)
  }

  /// Registering loses no count: the table's load and store totals grow by
  /// the record's own counters unless the record is dropped.
  lemma {:induction false} MergeTypesTotals(types: Types, info: TypeInfo)
    requires Keyed(types)
    ensures ReadsOf(MergeTypesSpec(types, info)) == ReadsOf(types) + (if Ignored(types, info) then 0 else info.readCount)
    ensures WritesOf(MergeTypesSpec(types, info)) == WritesOf(types) + (if Ignored(types, info) then 0 else info.writeCount)
  {
    MergeTypesCases(types, info);
    var r := MergeTypesSpec(types, info);
    var k := info.ident;
    if !Ignored(types, info) {
      var fr: string -> int := x => if x in r then r[x].readCount else 0;
      var fw: string -> int := x => if x in r then r[x].writeCount else 0;
      var gr: string -> int := x => if x in types then types[x].readCount else 0;
      var gw: string -> int := x => if x in types then types[x].writeCount else 0;
      var rest := types.Keys - {k};
      SetSumCongruent(rest, fr, gr);
      SetSumCongruent(rest, fw, gw);
      SetSumAdd(rest, k, fr);
      SetSumAdd(rest, k, fw);
      assert r.Keys == rest + {k};
      if k in types {
        SetSumAdd(rest, k, gr);
        SetSumAdd(rest, k, gw);
        assert types.Keys == rest + {k};
      } else {
        assert types.Keys == rest;
      }
    }
  }

  // ---------------------------------------------------------------------
  // Attributing a load or store to the fields it overlaps

  datatype Access = Load | Store

  /// The operation kinds a dump may name.
  function AccessOf(kind: string): (r: Option<Access>)
    ensures r == Some(Load) <==> kind == "load"
    ensures r == Some(Store) <==> kind == "store"
    ensures r.None? <==> kind != "load" && kind != "store"
  {
    if kind == "load" then Some(Load) else if kind == "store" then Some(Store) else None
  }

  /// The counter an access bumps.
  function Counter(t: TypeInfo, a: Access): int
  {
    match a
    case Load => t.readCount
    case Store => t.writeCount
  }

  function Counted(t: TypeInfo, a: Access, count: int): TypeInfo
  {
    match a
    case Load => t.(readCount := t.readCount + count)
    case Store => t.(writeCount := t.writeCount + count)
  }

  function CountedField(f: Field, a: Access, count: int): Field
  {
    match a
    case Load => f.(readCount := f.readCount + count)
    case Store => f.(writeCount := f.writeCount + count)
  }

  /// The access [offset, offset + size) is not wholly before or wholly
  /// after the member.
  predicate Overlaps(f: Field, offset: int, size: int)
  {
    !(offset >= f.offset + f.size || offset + size <= f.offset)
  }

  predicate Within(x: int, lo: int, len: int)
  {
    lo <= x < lo + len
  }

  /// For a member and an access of at least one byte, the test is
  /// interval intersection: some byte lies in both.
  lemma OverlapsIffSharedByte(f: Field, offset: int, size: int)
    requires f.size >= 1 && size >= 1
    ensures Overlaps(f, offset, size) <==> exists x :: Within(x, offset, size) && Within(x, f.offset, f.size)
  {
    if Overlaps(f, offset, size) {
      var x := Max(offset, f.offset);
      assert Within(x, offset, size) && Within(x, f.offset, f.size);
    }
  }

  /// The members from index `from` on that the access overlaps have their
  /// counter bumped; the others are as they were.
  function TouchedFrom(fields: seq<Field>, from: nat, a: Access, count: int, offset: int, size: int): (r: seq<Field>)
    ensures |r| == |fields|
  {
    seq(|fields|, j requires 0 <= j < |fields| =>
      if j >= from && Overlaps(fields[j], offset, size) then CountedField(fields[j], a, count) else fields[j])
  }

  /// The record itself after the access: its counter and the counter of
  /// each member it overlaps gain `count`.
  function Touched(t: TypeInfo, a: Access, count: int, offset: int, size: int): TypeInfo
  {
    Counted(t, a, count).(fields := TouchedFrom(t.fields, 0, a, count, offset, size))
  }

  lemma TouchedFromStep(fields: seq<Field>, i: nat, a: Access, count: int, offset: int, size: int)
    requires i < |fields|
    ensures Overlaps(fields[i], offset, size) ==>
      TouchedFrom(fields[i := CountedField(fields[i], a, count)], i + 1, a, count, offset, size) ==
      TouchedFrom(fields, i, a, count, offset, size)
    ensures !Overlaps(fields[i], offset, size) ==>
      TouchedFrom(fields, i + 1, a, count, offset, size) == TouchedFrom(fields, i, a, count, offset, size)
  {
  }

  /// The table with type `id`'s counter bumped.
  function CountAt(types: Types, id: string, a: Access, count: int): (r: Types)
    requires id in types
    ensures r.Keys == types.Keys
    ensures r[id] == Counted(types[id], a, count)
    ensures forall k | k in types && k != id :: r[k] == types[k]
  {
    types[id := Counted(types[id], a, count)]
  }

  /// The table with the counter of member `i` of type `id` bumped.
  function CountMemberAt(types: Types, id: string, i: nat, a: Access, count: int): (r: Types)
    requires id in types && i < |types[id].fields|
    ensures r.Keys == types.Keys
    ensures r[id] == types[id].(fields := types[id].fields[i := CountedField(types[id].fields[i], a, count)])
    ensures forall k | k in types && k != id :: r[k] == types[k]
  {
    types[id := types[id].(fields := types[id].fields[i := CountedField(types[id].fields[i], a, count)])]
  }

  /// Why an access could not be attributed.
  datatype OpError = AssertionFailed | InvalidOp

  /// The access window as written: a negative offset is raised to 0 and
  /// the size grows by the offset's magnitude.
  function ClampAsWritten(offset: int, size: int): (int, int)
  {
    if offset < 0 then (0, size - offset) else (offset, size)
  }

  /// As written, an access starting before the type has its end pushed
  /// out by twice the offset's magnitude instead of staying where it was.
  lemma ClampAsWrittenMovesEnd(offset: int, size: int)
    requires offset < 0
    ensures ClampAsWritten(offset, size).0 + ClampAsWritten(offset, size).1 == offset + size - 2 * offset
  {
  }

  /// An 8-byte access at offset -4 covers bytes -4..3 of the type, yet as
  /// written it is attributed to a member at bytes 4..7 as well.
  lemma ClampAsWrittenTouchesMemberPastAccess()
    ensures var f := NewField("b", "int", false, 4, 4, 32, Some(32));
      !Overlaps(f, -4, 8) && Overlaps(f, ClampAsWritten(-4, 8).0, ClampAsWritten(-4, 8).1)
  {
  }

  /// The evident intent: raise the start to 0 and keep the end, so the
  /// window is the part of the access inside the type.
  function Clamp(offset: int, size: int): (r: (int, int))
    ensures r.0 == Max(offset, 0)
    ensures r.0 + r.1 == offset + size
  {
    if offset < 0 then (0, size + offset) else (offset, size)
  }

  /// Clamping changes no member's overlap with the access: members lie at
  /// non-negative offsets.
  lemma ClampKeepsOverlaps(f: Field, offset: int, size: int)
    requires f.offset >= 0 && f.size >= 1
    ensures Overlaps(f, Clamp(offset, size).0, Clamp(offset, size).1) <==> Overlaps(f, offset, size)
  {
  }

  /// Which window each level of the attribution uses: the script's as
  /// written, or the intended one.
  datatype Clamping = AsWritten | Intended

  function Window(mode: Clamping, offset: int, size: int): (int, int)
  {
    match mode
    case AsWritten => ClampAsWritten(offset, size)
    case Intended => Clamp(offset, size)
  }

  /// A member the clamped access overlaps passes its type a window that
  /// again holds at least one byte once clamped, so the size assertion of
  /// every recursive level holds.
  lemma WindowOfMember(mode: Clamping, f: Field, offset: int, size: int)
    requires offset >= 0 && size >= 1 && Overlaps(f, offset, size)
    ensures Window(mode, offset - f.offset, size).1 >= 1
  {
  }

  /// The effect of an access on the table, as the recursive `apply_op`:
  /// the window is clamped, the type's counter bumped, then, member by
  /// member, each member the window overlaps has its counter bumped and
  /// its type takes the access at the offset relative to the member.
  /// `stack` holds the types whose members are being walked: they are
  /// never descended into again. The clamped window must hold a byte, as
  /// the script asserts at every level.
  function ApplyAt(mode: Clamping, types: Types, stack: set<string>, id: string, a: Access, count: int,
                   offset: int, size: int): (r: Types)
    requires id in types && id !in stack && Window(mode, offset, size).1 >= 1
    ensures r.Keys == types.Keys
    ensures r[id] == Touched(types[id], a, count, Window(mode, offset, size).0, Window(mode, offset, size).1)
    ensures forall k | k in stack && k in types :: r[k] == types[k]
    decreases types.Keys - stack - {id}, 2, 0
  {
    ApplyFields(mode, CountAt(types, id, a, count), stack + {id}, id, a, count,
                Window(mode, offset, size).0, Window(mode, offset, size).1, 0)
  }

  /// One overlapping member: its counter is bumped, then its type takes
  /// the access at the offset relative to the member.
  function ApplyMember(mode: Clamping, types: Types, stack: set<string>, id: string, a: Access, count: int,
                       offset: int, size: int, i: nat): (r: Types)
    requires id in types && id in stack && i < |types[id].fields|
    requires offset >= 0 && size >= 1 && Overlaps(types[id].fields[i], offset, size)
    ensures r.Keys == types.Keys
    ensures r[id] == types[id].(fields := types[id].fields[i := CountedField(types[id].fields[i], a, count)])
    ensures forall k | k in stack && k in types :: k == id || r[k] == types[k]
    decreases types.Keys - stack, 0, 0
  {
    var u := types[id].fields[i].typ;
    WindowOfMember(mode, types[id].fields[i], offset, size);
    if u in types && u !in stack then
      ApplyAt(mode, CountMemberAt(types, id, i, a, count), stack, u, a, count, offset - types[id].fields[i].offset, size)
    else
      CountMemberAt(types, id, i, a, count)
  }

  /// The members of type `id` from index `i` on, against the clamped window.
  function ApplyFields(mode: Clamping, types: Types, stack: set<string>, id: string, a: Access, count: int,
                       offset: int, size: int, i: nat): (r: Types)
    requires id in types && id in stack && i <= |types[id].fields| && offset >= 0 && size >= 1
    ensures r.Keys == types.Keys
    ensures r[id] == types[id].(fields := TouchedFrom(types[id].fields, i, a, count, offset, size))
    ensures forall k | k in stack && k in types :: k == id || r[k] == types[k]
    decreases types.Keys - stack, 1, |types[id].fields| - i
  {
    if i == |types[id].fields| then
      assert TouchedFrom(types[id].fields, i, a, count, offset, size) == types[id].fields;
      types
    else
      TouchedFromStep(types[id].fields, i, a, count, offset, size);
      if Overlaps(types[id].fields[i], offset, size) then
        ApplyFields(mode, ApplyMember(mode, types, stack, id, a, count, offset, size, i), stack, id, a, count, offset, size, i + 1)
      else
        ApplyFields(mode, types, stack, id, a, count, offset, size, i + 1)
  }

  /// Every type's counter for the access is at least what it was.
  predicate Grows(before: Types, after: Types, a: Access)
  {
    forall k | k in before :: k in after && Counter(after[k], a) >= Counter(before[k], a)
  }

  lemma GrowsTransitive(x: Types, y: Types, z: Types, a: Access)
    requires Grows(x, y, a) && Grows(y, z, a)
    ensures Grows(x, z, a)
  {
  }

  /// A member the access reaches: it overlaps the access and its type is
  /// in the table and not already being walked.
  predicate Reaches(types: Types, stack: set<string>, f: Field, offset: int, size: int)
  {
    Overlaps(f, offset, size) && f.typ in types && f.typ !in stack
  }

  /// With a non-negative count, no counter of the access's kind goes down,
  /// and the type of each member the clamped access overlaps gains at
  /// least the count: the access is attributed down the containment tree.
  lemma {:induction false} ApplyAtGrows(mode: Clamping, types: Types, stack: set<string>, id: string, a: Access,
                                        count: int, offset: int, size: int)
    requires id in types && id !in stack && Window(mode, offset, size).1 >= 1 && count >= 0
    ensures Grows(types, ApplyAt(mode, types, stack, id, a, count, offset, size), a)
    ensures forall j | 0 <= j < |types[id].fields| &&
        Reaches(types, stack + {id}, types[id].fields[j], Window(mode, offset, size).0, Window(mode, offset, size).1) ::
      Counter(ApplyAt(mode, types, stack, id, a, count, offset, size)[types[id].fields[j].typ], a) >=
      Counter(types[types[id].fields[j].typ], a) + count
    decreases types.Keys - stack - {id}, 2, 0, 0
  {
    var t := CountAt(types, id, a, count);
    ApplyFieldsGrows(mode, t, stack + {id}, id, a, count, Window(mode, offset, size).0, Window(mode, offset, size).1, 0);
    GrowsTransitive(types, t, ApplyAt(mode, types, stack, id, a, count, offset, size), a);
  }

  lemma {:induction false} ApplyMemberGrows(mode: Clamping, types: Types, stack: set<string>, id: string, a: Access,
                                            count: int, offset: int, size: int, i: nat)
    requires id in types && id in stack && i < |types[id].fields| && count >= 0
    requires offset >= 0 && size >= 1 && Overlaps(types[id].fields[i], offset, size)
    ensures Grows(types, ApplyMember(mode, types, stack, id, a, count, offset, size, i), a)
    ensures Reaches(types, stack, types[id].fields[i], offset, size) ==>
      Counter(ApplyMember(mode, types, stack, id, a, count, offset, size, i)[types[id].fields[i].typ], a) >=
      Counter(types[types[id].fields[i].typ], a) + count
    decreases types.Keys - stack, 0, 0, 1
  {
    var u := types[id].fields[i].typ;
    if u in types && u !in stack {
      DescendGrows(mode, types, stack, id, a, count, offset, size, i);
    } else {
      var t := CountMemberAt(types, id, i, a, count);
      assert ApplyMember(mode, types, stack, id, a, count, offset, size, i) == t;
      assert Grows(types, t, a);
    }
  }

  /// ApplyMemberGrows for a member whose type the access descends into.
  lemma {:induction false} DescendGrows(mode: Clamping, types: Types, stack: set<string>, id: string, a: Access,
                                        count: int, offset: int, size: int, i: nat)
    requires id in types && id in stack && i < |types[id].fields| && count >= 0
    requires offset >= 0 && size >= 1 && Overlaps(types[id].fields[i], offset, size)
    requires types[id].fields[i].typ in types && types[id].fields[i].typ !in stack
    ensures Grows(types, ApplyMember(mode, types, stack, id, a, count, offset, size, i), a)
    ensures Counter(ApplyMember(mode, types, stack, id, a, count, offset, size, i)[types[id].fields[i].typ], a) >=
      Counter(types[types[id].fields[i].typ], a) + count
    decreases types.Keys - stack, 0, 0, 0
  {
    var u := types[id].fields[i].typ;
    var t := CountMemberAt(types, id, i, a, count);
    var off := offset - types[id].fields[i].offset;
    WindowOfMember(mode, types[id].fields[i], offset, size);
    var r := ApplyAt(mode, t, stack, u, a, count, off, size);
    assert ApplyMember(mode, types, stack, id, a, count, offset, size, i) == r;
    assert Grows(types, t, a);
    assert u != id && t[u] == types[u];
    assert t.Keys - stack - {u} < types.Keys - stack;
    ApplyAtGrows(mode, t, stack, u, a, count, off, size);
    GrowsTransitive(types, t, r, a);
  }

  lemma {:induction false} ApplyFieldsGrows(mode: Clamping, types: Types, stack: set<string>, id: string, a: Access,
                                            count: int, offset: int, size: int, i: nat)
    requires id in types && id in stack && i <= |types[id].fields| && count >= 0 && offset >= 0 && size >= 1
    ensures Grows(types, ApplyFields(mode, types, stack, id, a, count, offset, size, i), a)
    ensures forall j | i <= j < |types[id].fields| && Reaches(types, stack, types[id].fields[j], offset, size) ::
      Counter(ApplyFields(mode, types, stack, id, a, count, offset, size, i)[types[id].fields[j].typ], a) >=
      Counter(types[types[id].fields[j].typ], a) + count
    decreases types.Keys - stack, 1, |types[id].fields| - i, 1
  {
    if i < |types[id].fields| {
      if Overlaps(types[id].fields[i], offset, size) {
        ApplyOverlappingGrows(mode, types, stack, id, a, count, offset, size, i);
      } else {
        ApplyFieldsGrows(mode, types, stack, id, a, count, offset, size, i + 1);
      }
    }
  }

  /// The step of ApplyFieldsGrows past a member the access overlaps.
  lemma {:induction false} ApplyOverlappingGrows(mode: Clamping, types: Types, stack: set<string>, id: string, a: Access,
                                                 count: int, offset: int, size: int, i: nat)
    requires id in types && id in stack && i < |types[id].fields| && count >= 0 && offset >= 0 && size >= 1
    requires Overlaps(types[id].fields[i], offset, size)
    ensures Grows(types, ApplyFields(mode, types, stack, id, a, count, offset, size, i), a)
    ensures forall j | i <= j < |types[id].fields| && Reaches(types, stack, types[id].fields[j], offset, size) ::
      Counter(ApplyFields(mode, types, stack, id, a, count, offset, size, i)[types[id].fields[j].typ], a) >=
      Counter(types[types[id].fields[j].typ], a) + count
    decreases types.Keys - stack, 1, |types[id].fields| - i, 0
  {
    var t := ApplyMember(mode, types, stack, id, a, count, offset, size, i);
    var r := ApplyFields(mode, t, stack, id, a, count, offset, size, i + 1);
    assert ApplyFields(mode, types, stack, id, a, count, offset, size, i) == r;
    ApplyMemberGrows(mode, types, stack, id, a, count, offset, size, i);
    ApplyFieldsGrows(mode, t, stack, id, a, count, offset, size, i + 1);
    GrowsTransitive(types, t, r, a);
    ReachesAfterMember(types, t, r, stack, id, a, count, offset, size, i);
  }

  /// The members from `i` on gain the count in `r` when member `i` gained it
  /// in `t`, the later members are the same in `t`, and they gain it from
  /// `t` to `r`.
  lemma ReachesAfterMember(types: Types, t: Types, r: Types, stack: set<string>, id: string, a: Access,
                           count: int, offset: int, size: int, i: nat)
    requires id in types && id in t && i < |types[id].fields| && |t[id].fields| == |types[id].fields|
    requires t.Keys == types.Keys && Grows(types, t, a) && Grows(t, r, a)
    requires forall j | i < j < |types[id].fields| :: t[id].fields[j] == types[id].fields[j]
    requires Reaches(types, stack, types[id].fields[i], offset, size) ==>
      Counter(t[types[id].fields[i].typ], a) >= Counter(types[types[id].fields[i].typ], a) + count
    requires forall j | i + 1 <= j < |t[id].fields| && Reaches(t, stack, t[id].fields[j], offset, size) ::
      Counter(r[t[id].fields[j].typ], a) >= Counter(t[t[id].fields[j].typ], a) + count
    ensures forall j | i <= j < |types[id].fields| && Reaches(types, stack, types[id].fields[j], offset, size) ::
      Counter(r[types[id].fields[j].typ], a) >= Counter(types[types[id].fields[j].typ], a) + count
  {
    forall j | i <= j < |types[id].fields| && Reaches(types, stack, types[id].fields[j], offset, size)
      ensures Counter(r[types[id].fields[j].typ], a) >= Counter(types[types[id].fields[j].typ], a) + count
    {
      var u := types[id].fields[j].typ;
      assert u in t;
      if j > i {
        assert t[id].fields[j] == types[id].fields[j];
      }
    }
  }

  /// One profiled access applied to the type it names, as `apply_op`: the
  /// window is clamped, it must then hold at least one byte, and its kind
  /// must be a load or a store.
  function ApplyOpBy(mode: Clamping, types: Types, id: string, kind: string, count: int, offset: int, size: int): (r: Result<Types, OpError>)
    requires id in types
  {
    if Window(mode, offset, size).1 < 1 then Err(AssertionFailed)
    else match AccessOf(kind)
      case None => Err(InvalidOp)
      case Some(a) => Ok(ApplyAt(mode, types, {}, id, a, count, offset, size))
  }

  /// The script's `apply_op` as written.
  function ApplyOpAsWritten(types: Types, id: string, kind: string, count: int, offset: int, size: int): (r: Result<Types, OpError>)
    requires id in types
    ensures r.Err? <==> size < 1 + Min(offset, 0) || (kind != "load" && kind != "store")
  {
    ApplyOpBy(AsWritten, types, id, kind, count, offset, size)
  }

  /// The intended `apply_op`, which the type table performs.
  function ApplyOpSpec(types: Types, id: string, kind: string, count: int, offset: int, size: int): (r: Result<Types, OpError>)
    requires id in types
  {
    ApplyOpBy(Intended, types, id, kind, count, offset, size)
  }

  /// An access fails exactly when no byte of it lies at or after the
  /// type's start, or its kind is neither load nor store; otherwise the
  /// type's own counter gains the count.
  lemma ApplyOpSpecOutcome(types: Types, id: string, kind: string, count: int, offset: int, size: int)
    requires id in types
    ensures ApplyOpSpec(types, id, kind, count, offset, size).Err? <==>
      offset + size < 1 || (offset >= 0 && size < 1) || (kind != "load" && kind != "store")
    ensures ApplyOpSpec(types, id, kind, count, offset, size).Ok? ==>
      var a := AccessOf(kind).value;
      Counter(ApplyOpSpec(types, id, kind, count, offset, size).value[id], a) == Counter(types[id], a) + count
  {
  }

  /// The shape of the example: a struct `S { int a; B b; }` with members
  /// at bytes 0..3 and 4..11, where `B { int x; int y; }` has `y` at bytes
  /// 4..7 and `int` has no members.
  predicate ExampleShape(e: Types)
  {
    "S" in e && "B" in e && "int" in e && e["int"].fields == [] &&
    |e["S"].fields| == 2 &&
    e["S"].fields[0].typ == "int" && e["S"].fields[0].offset == 0 && e["S"].fields[0].size == 4 &&
    e["S"].fields[1].typ == "B" && e["S"].fields[1].offset == 4 && e["S"].fields[1].size == 8 &&
    |e["B"].fields| == 2 && e["B"].fields[1].offset == 4 && e["B"].fields[1].size == 4
  }

  /// A table of that shape, as the dumps would give it.
  function ExampleTypes(): (e: Types)
    ensures ExampleShape(e)
  {
    map["S" := NewTypeInfo("S", "struct", "s.h", Some(1), true, false).(size := Some(12), fields :=
           [NewField("a", "int", false, 0, 4, 0, Some(32)), NewField("b", "B", false, 4, 8, 32, Some(64))]),
        "B" := NewTypeInfo("B", "struct", "s.h", Some(2), true, false).(size := Some(8), fields :=
           [NewField("x", "int", false, 0, 4, 0, Some(32)), NewField("y", "int", false, 4, 4, 32, Some(32))]),
        "int" := NewTypeInfo("int", "placeholder", "", None, false, true)]
  }

  /// An 8-byte load at offset 0 of `S` covers `S.a` and the first half of
  /// `S.b`, that is `B.x` only. As written, the recursive level clamps
  /// `b`'s window [-4, 4) to [0, 12) and counts the load against `B.y`
  /// too; with the intended clamping it is [0, 4) and `B.y` is untouched.
  lemma ApplyOpAsWrittenCountsPastAccess(e: Types)
    requires ExampleShape(e)
    ensures ApplyOpAsWritten(e, "S", "load", 1, 0, 8).Ok?
    ensures |ApplyOpAsWritten(e, "S", "load", 1, 0, 8).value["B"].fields| == 2
    ensures ApplyOpAsWritten(e, "S", "load", 1, 0, 8).value["B"].fields[1].readCount == e["B"].fields[1].readCount + 1
    ensures ApplyOpSpec(e, "S", "load", 1, 0, 8).Ok?
    ensures |ApplyOpSpec(e, "S", "load", 1, 0, 8).value["B"].fields| == 2
    ensures ApplyOpSpec(e, "S", "load", 1, 0, 8).value["B"].fields[1].readCount == e["B"].fields[1].readCount
  {
    ExampleReachesB(AsWritten, e);
    ExampleReachesB(Intended, e);
    var y := e["B"].fields[1];
    assert Overlaps(y, 0, 12) && !Overlaps(y, 0, 4);
  }

  /// The first member, `S.a`: its counter is bumped and `int`'s, and
  /// nothing else.
  lemma ExampleFirstMember(mode: Clamping, e: Types)
    requires ExampleShape(e)
    ensures var t0 := CountAt(e, "S", Load, 1);
      ApplyMember(mode, t0, {"S"}, "S", Load, 1, 0, 8, 0) ==
      CountAt(CountMemberAt(t0, "S", 0, Load, 1), "int", Load, 1)
  {
    var t0 := CountAt(e, "S", Load, 1);
    var c0 := CountMemberAt(t0, "S", 0, Load, 1);
    assert ApplyMember(mode, t0, {"S"}, "S", Load, 1, 0, 8, 0) == ApplyAt(mode, c0, {"S"}, "int", Load, 1, 0, 8);
    assert {"S"} + {"int"} == {"S", "int"};
    assert Window(mode, 0, 8) == (0, 8);
    var i1 := CountAt(c0, "int", Load, 1);
    assert ApplyFields(mode, i1, {"S", "int"}, "int", Load, 1, 0, 8, 0) == i1;
  }

  /// The second member, `S.b`: `B` takes the window [-4, 4).
  lemma ExampleSecondMember(mode: Clamping, e: Types, t1: Types)
    requires ExampleShape(e)
    requires t1 == CountAt(CountMemberAt(CountAt(e, "S", Load, 1), "S", 0, Load, 1), "int", Load, 1)
    ensures ApplyMember(mode, t1, {"S"}, "S", Load, 1, 0, 8, 1)["B"] ==
      Touched(e["B"], Load, 1, Window(mode, -4, 8).0, Window(mode, -4, 8).1)
  {
    assert t1["B"] == e["B"] && t1["S"].fields[1] == e["S"].fields[1];
    var c1 := CountMemberAt(t1, "S", 1, Load, 1);
    assert ApplyMember(mode, t1, {"S"}, "S", Load, 1, 0, 8, 1) == ApplyAt(mode, c1, {"S"}, "B", Load, 1, -4, 8);
  }

  /// In a table of that shape, `B`'s record ends up touched by the window
  /// its member `S.b` passes down, [-4, 4) clamped by the mode.
  lemma ExampleReachesB(mode: Clamping, e: Types)
    requires ExampleShape(e)
    ensures ApplyAt(mode, e, {}, "S", Load, 1, 0, 8)["B"] ==
      Touched(e["B"], Load, 1, Window(mode, -4, 8).0, Window(mode, -4, 8).1)
  {
    assert Window(mode, 0, 8) == (0, 8);
    var t0 := CountAt(e, "S", Load, 1);
    ExampleFirstMember(mode, e);
    var t1 := ApplyMember(mode, t0, {"S"}, "S", Load, 1, 0, 8, 0);
    ExampleSecondMember(mode, e, t1);
    var t2 := ApplyMember(mode, t1, {"S"}, "S", Load, 1, 0, 8, 1);
    assert ApplyFields(mode, t2, {"S"}, "S", Load, 1, 0, 8, 2) == t2;
    assert ApplyFields(mode, t0, {"S"}, "S", Load, 1, 0, 8, 0) == t2;
    assert {} + {"S"} == {"S"};
  }

  // ---------------------------------------------------------------------
  // Recovering unknown member sizes

  function End(f: Field): int
  {
    f.offset + f.size
  }

  /// From index `i` on, unknown member sizes (-1) have been filled in with
  /// non-negative values; nothing else has changed.
  predicate FilledFrom(before: seq<Field>, after: seq<Field>, i: nat)
  {
    |after| == |before| &&
    forall j | 0 <= j < |before| ::
      if i <= j && before[j].size == -1 then after[j] == before[j].(size := after[j].size) && after[j].size >= 0
      else after[j] == before[j]
  }

  /// `m` is the largest of `acc` and the ends of the members from `i` on.
  predicate MaxEnd(fields: seq<Field>, i: nat, acc: int, m: int)
  {
    m >= acc && (forall j | i <= j < |fields| :: m >= End(fields[j])) &&
    (m == acc || exists j | i <= j < |fields| :: m == End(fields[j]))
  }

  /// The table with member `i` of type `id` given size `g`.
  function SizeAt(types: Types, id: string, i: nat, g: int): (r: Types)
    requires id in types && i < |types[id].fields|
    ensures r.Keys == types.Keys
    ensures r[id] == types[id].(fields := types[id].fields[i := types[id].fields[i].(size := g)])
    ensures forall k | k in types && k != id :: r[k] == types[k]
  {
    types[id := types[id].(fields := types[id].fields[i := types[id].fields[i].(size := g)])]
  }

  /// A type's size: the recorded one if any, otherwise the furthest end of
  /// its members (0 without members), after filling in the unknown member
  /// sizes with their types' sizes.
  function GuessAt(types: Types, stack: set<string>, id: string): (r: (int, Types))
    requires id in types && id !in stack
    ensures r.1.Keys == types.Keys
    ensures r.0 >= 0
    ensures types[id].size.Some? ==> r == (types[id].size.value, types)
    ensures types[id].size.None? ==>
      r.1[id] == types[id].(fields := r.1[id].fields) &&
      FilledFrom(types[id].fields, r.1[id].fields, 0) && MaxEnd(r.1[id].fields, 0, 0, r.0)
    ensures forall k | k in stack && k in types :: r.1[k] == types[k]
    decreases types.Keys - stack - {id}, 2, 0
  {
    if types[id].size.Some? then (types[id].size.value, types)
    else GuessFields(types, stack + {id}, id, 0, 0)
  }

  /// Filling in one unknown member size with its type's size.
  function GuessMember(types: Types, stack: set<string>, id: string, i: nat): (r: Types)
    requires id in types && id in stack && i < |types[id].fields|
    ensures r.Keys == types.Keys && |r[id].fields| == |types[id].fields|
    ensures r[id] == types[id].(fields := types[id].fields[i := types[id].fields[i].(size := r[id].fields[i].size)])
    ensures r[id].fields[i].size >= 0
    ensures forall k | k in stack && k in types :: k == id || r[k] == types[k]
    decreases types.Keys - stack, 0, 0
  {
    var u := types[id].fields[i].typ;
    if u in types && u !in stack then
      SizeAt(GuessAt(types, stack, u).1, id, i, GuessAt(types, stack, u).0)
    else
      SizeAt(types, id, i, 0)
  }

  /// The members from index `i` on, with `acc` the furthest end so far.
  function GuessFields(types: Types, stack: set<string>, id: string, i: nat, acc: int): (r: (int, Types))
    requires id in types && id in stack && i <= |types[id].fields|
    ensures r.1.Keys == types.Keys
    ensures r.1[id] == types[id].(fields := r.1[id].fields)
    ensures FilledFrom(types[id].fields, r.1[id].fields, i) && MaxEnd(r.1[id].fields, i, acc, r.0)
    ensures forall k | k in stack && k in types :: k == id || r.1[k] == types[k]
    decreases types.Keys - stack, 1, |types[id].fields| - i
  {
    if i == |types[id].fields| then (acc, types)
    else if types[id].fields[i].size == -1 then
      var t := GuessMember(types, stack, id, i);
      var r := GuessFields(t, stack, id, i + 1, Max(acc, End(t[id].fields[i])));
      GuessFieldsStep(types[id].fields, t[id].fields, r.1[id].fields, i, acc, r.0);
      r
    else
      var r := GuessFields(types, stack, id, i + 1, Max(acc, End(types[id].fields[i])));
      GuessFieldsStep(types[id].fields, types[id].fields, r.1[id].fields, i, acc, r.0);
      r
  }

  lemma GuessFieldsStep(before: seq<Field>, mid: seq<Field>, after: seq<Field>, i: nat, acc: int, m: int)
    requires i < |before| && |mid| == |before|
    requires forall j | 0 <= j < |before| && j != i :: mid[j] == before[j]
    requires before[i].size == -1 ==> mid[i] == before[i].(size := mid[i].size) && mid[i].size >= 0
    requires before[i].size != -1 ==> mid[i] == before[i]
    requires FilledFrom(mid, after, i + 1)
    requires MaxEnd(after, i + 1, Max(acc, End(mid[i])), m)
    ensures FilledFrom(before, after, i) && MaxEnd(after, i, acc, m)
  {
    assert after[i] == mid[i];
    if m != acc && m == End(mid[i]) {
      assert m == End(after[i]);
    }
  }

  // ---------------------------------------------------------------------
  // The type table

  /// The table of type records, keyed by identifier, whose records the
  /// script updates in place.
  class TypeTable {
    var types: Types

    constructor ()
      ensures types == map[]
    {
      types := map[];
    }

    /// Registering a record read from a dump.
    method MergeTypes(info: TypeInfo)
      modifies this
      requires Keyed(types)
      ensures types == MergeTypesSpec(old(types), info)
    {
      var ident := info.ident;
      if ident !in types {
        types := types[ident := info];
        return;
      }
      if info.kind == "placeholder" || info.decl {
        return;
      }
      var existing := types[ident];
      if existing.kind == "placeholder" {
        if info.kind != "placeholder" {
          types := types[ident := MergeFrom(existing, info)];
        }
        return;
      }
      if existing.decl {
        if !info.decl {
          types := types[ident := MergeFrom(existing, info)];
        }
        return;
      }
      if info.decl {
        return;
      }
      types := types[ident := MergeFrom(existing, info)];
    }

    /// Attributing one profiled access to the type `id` and, through the
    /// members it overlaps, to the types they contain.
    method ApplyOp(id: string, kind: string, count: int, offset: int, size: int) returns (err: Option<OpError>)
      modifies this
      requires id in types
      ensures var spec := ApplyOpSpec(old(types), id, kind, count, offset, size);
        (spec.Ok? ==> err.None? && types == spec.value) &&
        (spec.Err? ==> err == Some(spec.error) && types == old(types))
    {
      var o, s := Clamp(offset, size).0, Clamp(offset, size).1;
      if s < 1 {
        return Some(AssertionFailed);
      }
      var a: Access;
      if kind == "load" {
        a := Load;
      } else if kind == "store" {
        a := Store;
      } else {
        return Some(InvalidOp);
      }
      Apply(id, a, count, offset, size, {});
      err := None;
    }

    /// One level of the recursion: the window is clamped, then the type's
    /// counter and each overlapping member's counter and type take the
    /// access.
    method Apply(id: string, a: Access, count: int, offset: int, size: int, stack: set<string>)
      modifies this
      requires id in types && id !in stack && Clamp(offset, size).1 >= 1
      ensures types == ApplyAt(Intended, old(types), stack, id, a, count, offset, size)
      decreases types.Keys - stack - {id}, 1
    {
      var o, s := offset, size;
      if o < 0 {
        s := s + o;
        o := 0;
      }
      types := CountAt(types, id, a, count);
      ghost var t1 := types;
      var i := 0;
      while i < |types[id].fields|
        invariant id in types && i <= |types[id].fields| && types.Keys == t1.Keys
        invariant ApplyFields(Intended, types, stack + {id}, id, a, count, o, s, i) ==
                  ApplyFields(Intended, t1, stack + {id}, id, a, count, o, s, 0)
        decreases |types[id].fields| - i
      {
        if Overlaps(types[id].fields[i], o, s) {
          ApplyToMember(id, a, count, o, s, i, stack + {id});
        }
        i := i + 1;
      }
    }

    /// One overlapping member of type `id`: its counter, then its type.
    method ApplyToMember(id: string, a: Access, count: int, offset: int, size: int, i: nat, stack: set<string>)
      modifies this
      requires id in types && id in stack && i < |types[id].fields|
      requires offset >= 0 && size >= 1 && Overlaps(types[id].fields[i], offset, size)
      ensures types == ApplyMember(Intended, old(types), stack, id, a, count, offset, size, i)
      decreases types.Keys - stack, 0
    {
      var f := types[id].fields[i];
      types := CountMemberAt(types, id, i, a, count);
      if f.typ in types && f.typ !in stack {
        WindowOfMember(Intended, f, offset, size);
        Apply(f.typ, a, count, offset - f.offset, size, stack);
      }
    }

    /// The size of type `id`, filling in unknown member sizes on the way.
    method GuessTypeSize(id: string, stack: set<string>) returns (size: int)
      modifies this
      requires id in types && id !in stack
      ensures (size, types) == GuessAt(old(types), stack, id)
      decreases types.Keys - stack - {id}, 1, 0
    {
      if types[id].size.Some? {
        return types[id].size.value;
      }
      size := 0;
      var i := 0;
      while i < |types[id].fields|
        invariant id in types && i <= |types[id].fields| && types.Keys == old(types).Keys
        invariant GuessFields(types, stack + {id}, id, i, size) == GuessAt(old(types), stack, id)
        decreases |types[id].fields| - i
      {
        size := GuessField(id, i, stack + {id}, size);
        i := i + 1;
      }
    }

    /// One pass of the member loop: the member's size is filled in when
    /// unknown, and the furthest end so far takes in its end.
    method GuessField(id: string, i: nat, stack: set<string>, acc: int) returns (acc': int)
      modifies this
      requires id in types && id in stack && i < |types[id].fields|
      ensures types.Keys == old(types).Keys && |types[id].fields| == |old(types)[id].fields|
      ensures GuessFields(types, stack, id, i + 1, acc') == GuessFields(old(types), stack, id, i, acc)
      decreases types.Keys - stack, 0, 1
    {
      if types[id].fields[i].size == -1 {
        GuessMemberSize(id, i, stack);
      }
      acc' := Max(acc, End(types[id].fields[i]));
    }

    /// One member of unknown size: its type's size, or 0 when its type is
    /// missing or being walked.
    method GuessMemberSize(id: string, i: nat, stack: set<string>)
      modifies this
      requires id in types && id in stack && i < |types[id].fields|
      ensures types == GuessMember(old(types), stack, id, i)
      decreases types.Keys - stack, 0, 0
    {
      var u := types[id].fields[i].typ;
      var g := 0;
      if u in types && u !in stack {
        g := GuessTypeSize(u, stack);
      }
      types := SizeAt(types, id, i, g);
    }
  }
}
