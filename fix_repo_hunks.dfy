// fix-repo.py's diff handling: parsing a unified-diff hunk header, and the
// HunkChecker cursor that tells whether a hunk holds external ("Ext") or
// internal ("Int") changes.
module FixRepoHunks {
  import opened Util

  /// The sentinel line number of the script, past any real line.
  const MAXLINES: nat := 10000000

  const BadHeader := "could not parse diff hunk header"
  const EmptyDeque := "pop from an empty deque"

  predicate IsDigit(c: char)
  {
    '0' <= c <= '9'
  }

  predicate AllDigits(s: string)
  {
    forall k :: 0 <= k < |s| ==> IsDigit(s[k])
  }

  /// int() of a run of decimal digits (the parser only applies it to
  /// digits).
  function Value(s: string): int
  {
    if s == [] then 0 else Value(s[..|s| - 1]) * 10 + (s[|s| - 1] as int - '0' as int)
  }

  /// The value of digits is a natural number.
  lemma {:induction false} ValueNat(s: string)
    requires AllDigits(s)
    ensures Value(s) >= 0
  {
    if s != [] {
      ValueNat(s[..|s| - 1]);
    }
  }

  /// The decimal text of `n`, as diff writes it.
  function Show(n: nat): (r: string)
    ensures r != []
  {
    if n < 10 then [('0' as int + n) as char]
    else Show(n / 10) + [('0' as int + n % 10) as char]
  }

  /// Reading back the decimal text of a number gives the number.
  lemma {:induction false} ValueShow(n: nat)
    ensures AllDigits(Show(n)) && Value(Show(n)) == n
  {
    if n >= 10 {
      ValueShow(n / 10);
      var s := Show(n);
      assert s[..|s| - 1] == Show(n / 10);
    }
  }

  /// The end of the run of digits that starts at `i` (a greedy `\d+`).
  function SpanDigits(s: string, i: nat): (j: nat)
    requires i <= |s|
    ensures i <= j <= |s|
    ensures j == |s| || !IsDigit(s[j])
    decreases |s| - i
  {
    if i < |s| && IsDigit(s[i]) then
      var j := SpanDigits(s, i + 1);
      j
    else i
  }

  /// One `start[,count]` at the head of `s`: the start, the count (1 when
  /// it is omitted) and the text after it; None when `s` does not start
  /// with digits, or a comma has no digits after it.
  function ParseRange(s: string): (r: Option<(int, int, string)>)
    ensures r.Some? ==> |r.value.2| < |s|
  {
    var j := SpanDigits(s, 0);
    if j == 0 then None
    else if j < |s| && s[j] == ',' then
      var k := SpanDigits(s, j + 1);
      if k == j + 1 then None else Some((Value(s[..j]), Value(s[j + 1..k]), s[k..]))
    else Some((Value(s[..j]), 1, s[j..]))
  }

  /// parseHunkHeader: a line starting `@@ -a[,b] +c[,d] @@` gives the old
  /// and the new half-open line intervals (a, a+b) and (c, c+d); any other
  /// line is the ValueError.
  function ParseHunkHeader(line: string): (r: Result<((int, int), (int, int)), string>)
    ensures !StartsWith(line, "@@ -") ==> r == Err(BadHeader)
  {
    if !StartsWith(line, "@@ -") then Err(BadHeader)
    else match ParseRange(line[4..])
      case None => Err(BadHeader)
      case Some((a, b, rest)) => ParseNewRange(a, b, rest)
  }

  /// The header after its old range `a,b`: ` +c[,d] @@`.
  function ParseNewRange(a: int, b: int, rest: string): (r: Result<((int, int), (int, int)), string>)
  {
    if !StartsWith(rest, " +") then Err(BadHeader)
    else match ParseRange(rest[2..])
      case None => Err(BadHeader)
      case Some((c, d, tail)) =>
        if !StartsWith(tail, " @@") then Err(BadHeader)
        else Ok(((a, a + b), (c, c + d)))
  }

  /// A decimal numeral as diff writes one: one or more digits.
  predicate Numeral(t: string)
  {
    t != [] && AllDigits(t)
  }

  /// The numerals of one `start[,count]`.
  predicate RangeOk(start: string, count: Option<string>)
  {
    Numeral(start) && (count.Some? ==> Numeral(count.value))
  }

  /// The text of one `start[,count]`.
  function RangeText(start: string, count: Option<string>): string
  {
    start + (if count.Some? then "," + count.value else "")
  }

  /// The count a range stands for: its numeral, or 1 when omitted.
  function CountOf(count: Option<string>): int
  {
    if count.Some? then Value(count.value) else 1
  }

  /// A hunk header line as diff writes it, with `rest` after it.
  function HeaderText(a: string, b: Option<string>, c: string, d: Option<string>, rest: string): string
  {
    "@@ -" + (RangeText(a, b) + (" +" + (RangeText(c, d) + (" @@" + rest))))
  }

  /// A run of digits from `i` that ends at `j` is the one SpanDigits finds.
  lemma {:induction false} SpanUnique(s: string, i: nat, j: nat)
    requires i <= j <= |s| && (forall k :: i <= k < j ==> IsDigit(s[k]))
    requires j == |s| || !IsDigit(s[j])
    ensures SpanDigits(s, i) == j
    decreases j - i
  {
    if i < j {
      SpanUnique(s, i + 1, j);
    }
  }

  /// The digits at the head of `t + post` are `t`, when `post` does not
  /// start with a digit.
  lemma SpanNumeral(t: string, post: string)
    requires AllDigits(t) && (post == [] || !IsDigit(post[0]))
    ensures var s := t + post; SpanDigits(s, 0) == |t| && s[..|t|] == t && s[|t|..] == post
  {
    var s := t + post;
    assert s[..|t|] == t && s[|t|..] == post;
    SpanUnique(s, 0, |t|);
  }

  /// A written range reads back as its start and count, and parsing goes on
  /// right after it.
  lemma ParseRangeText(start: string, count: Option<string>, post: string)
    requires RangeOk(start, count) && post != [] && post[0] == ' '
    ensures ParseRange(RangeText(start, count) + post) == Some((Value(start), CountOf(count), post))
  {
    if count.Some? {
      assert RangeText(start, count) + post == start + ("," + (count.value + post));
      ParseRangeCount(start, count.value, post);
    } else {
      assert RangeText(start, count) + post == start + post;
      ParseRangeStart(start, post);
    }
  }

  lemma ParseRangeStart(start: string, post: string)
    requires Numeral(start) && post != [] && post[0] == ' '
    ensures ParseRange(start + post) == Some((Value(start), 1, post))
  {
    SpanNumeral(start, post);
    ParseRangeNoComma(start + post, |start|);
  }

  lemma ParseRangeCount(start: string, count: string, post: string)
    requires Numeral(start) && Numeral(count) && post != [] && post[0] == ' '
    ensures ParseRange(start + ("," + (count + post))) == Some((Value(start), Value(count), post))
  {
    var s := start + ("," + (count + post));
    var j := |start|;
    SpanNumeral(start, "," + (count + post));
    assert s[j + 1..] == count + post;
    SpanAfter(s, j + 1, count, post);
    ParseRangeComma(s, j, j + 1 + |count|, start, count, post);
  }

  /// The digits at `i` of `s`, when `s[i..]` is `t + post`, are `t`.
  lemma SpanAfter(s: string, i: nat, t: string, post: string)
    requires i <= |s| && s[i..] == t + post
    requires AllDigits(t) && (post == [] || !IsDigit(post[0]))
    ensures SpanDigits(s, i) == i + |t| && s[i..i + |t|] == t && s[i + |t|..] == post
  {
    SpanNumeral(t, post);
    SpanShift(s, i, 0);
    assert s[i..i + |t|] == s[i..][..|t|];
    assert s[i + |t|..] == s[i..][|t|..];
  }

  lemma ParseRangeNoComma(s: string, j: nat)
    requires 0 < j < |s| && SpanDigits(s, 0) == j && s[j] != ','
    ensures ParseRange(s) == Some((Value(s[..j]), 1, s[j..]))
  {
  }

  lemma ParseRangeComma(s: string, j: nat, k: nat, start: string, count: string, post: string)
    requires 0 < j < |s| && SpanDigits(s, 0) == j && s[j] == ','
    requires SpanDigits(s, j + 1) == k && j + 1 < k
    requires s[..j] == start && s[j + 1..k] == count && s[k..] == post
    ensures ParseRange(s) == Some((Value(start), Value(count), post))
  {
  }

  /// The run of digits at `i + m` of `s` is the one at `m` of `s[i..]`.
  lemma {:induction false} SpanShift(s: string, i: nat, m: nat)
    requires i + m <= |s|
    ensures SpanDigits(s, i + m) == i + SpanDigits(s[i..], m)
    decreases |s| - i - m
  {
    if i + m < |s| && IsDigit(s[i + m]) {
      SpanShift(s, i, m + 1);
    }
  }

  /// Every header diff writes, whatever follows it on the line, parses to
  /// its two half-open intervals; an omitted count stands for 1.
  lemma ParseHeaderText(a: string, b: Option<string>, c: string, d: Option<string>, rest: string, line: string,
                         oldStart: int, oldCount: int, newStart: int, newCount: int)
    requires RangeOk(a, b) && RangeOk(c, d) && line == HeaderText(a, b, c, d, rest)
    requires oldStart == Value(a) && oldCount == CountOf(b) && newStart == Value(c) && newCount == CountOf(d)
    ensures ParseHunkHeader(line) == Ok(((oldStart, oldStart + oldCount), (newStart, newStart + newCount)))
  {
    var tail := " @@" + rest;
    var second := " +" + (RangeText(c, d) + tail);
    MarkedRange("@@ -", a, b, second, line);
    MarkedRange(" +", c, d, tail, second);
    assert StartsWith(tail, " @@");
    HeaderParts(line, oldStart, oldCount, second, newStart, newCount, tail);
  }

  lemma MarkedRange(mark: string, a: string, b: Option<string>, post: string, s: string)
    requires RangeOk(a, b) && post != [] && post[0] == ' ' && s == mark + (RangeText(a, b) + post)
    ensures StartsWith(s, mark) && ParseRange(s[|mark|..]) == Some((Value(a), CountOf(b), post))
  {
    assert s[|mark|..] == RangeText(a, b) + post;
    ParseRangeText(a, b, post);
  }

  /// A line whose three literals and two ranges read as given parses to
  /// their intervals.
  lemma HeaderParts(line: string, a: int, b: int, second: string, c: int, d: int, tail: string)
    requires StartsWith(line, "@@ -") && ParseRange(line[4..]) == Some((a, b, second))
    requires StartsWith(second, " +") && ParseRange(second[2..]) == Some((c, d, tail))
    requires StartsWith(tail, " @@")
    ensures ParseHunkHeader(line) == Ok(((a, a + b), (c, c + d)))
  {
  }

  /// How git-blame-diff attributes a line: to an external commit, to an
  /// internal one, or the sentinel appended after the last change.
  datatype Mode = Ext | Int | End

  /// A changed line and its attribution.
  datatype Change = Change(line: nat, mode: Mode)

  /// The change list a HunkChecker walks: the recorded changes and two
  /// sentinels at MAXLINES.
  function WithSentinels(changes: seq<Change>): (all: seq<Change>)
    ensures |all| == |changes| + 2 && all[..|changes|] == changes
  {
    changes + [Change(MAXLINES, End), Change(MAXLINES, End)]
  }

  predicate InHunk(c: Change, start: nat, end: nat)
  {
    start <= c.line < end
  }

  /// checkHunk with the cursor at `pos` of `all` (Cur is all[pos], Next is
  /// all[pos + 1]): whether some change the cursor passes lies in the hunk
  /// as Ext and as Int, and where the cursor stops; Err when the deque
  /// runs dry.
  function Check(all: seq<Change>, pos: nat, start: nat, end: nat): (r: Result<(bool, bool, nat), string>)
    requires pos + 1 < |all|
    ensures r.Ok? ==> pos <= r.value.2 && r.value.2 + 1 < |all|
    decreases |all| - pos
  {
    var ext := InHunk(all[pos], start, end) && all[pos].mode == Ext;
    var internal := InHunk(all[pos], start, end) && all[pos].mode == Int;
    if end < all[pos + 1].line then Ok((ext, internal, pos))
    else if pos + 2 == |all| then Err(EmptyDeque)
    else match Check(all, pos + 1, start, end)
      case Err(e) => Err(e)
      case Ok((e, i, p)) => Ok((ext || e, internal || i, p))
  }

  /// What a walk that succeeds has found: it stops where Next lies past the
  /// hunk, every change it moved onto lies at or before the hunk's end, and
  /// each flag says whether a change it passed lies in the hunk with that
  /// attribution.
  lemma {:induction false} CheckFinds(all: seq<Change>, pos: nat, start: nat, end: nat)
    requires pos + 1 < |all| && Check(all, pos, start, end).Ok?
    ensures var (ext, internal, p) := Check(all, pos, start, end).value;
      end < all[p + 1].line && (forall k :: pos < k <= p ==> all[k].line <= end) &&
      (ext <==> exists k :: pos <= k <= p && InHunk(all[k], start, end) && all[k].mode == Ext) &&
      (internal <==> exists k :: pos <= k <= p && InHunk(all[k], start, end) && all[k].mode == Int)
    decreases |all| - pos
  {
    if all[pos + 1].line <= end {
      CheckFinds(all, pos + 1, start, end);
    }
  }

  predicate Sorted(all: seq<Change>)
  {
    forall a, b :: 0 <= a < b < |all| ==> all[a].line <= all[b].line
  }

  /// With the changes in line order and the cursor past every change before
  /// the hunk, checkHunk reports exactly whether the whole list has an Ext
  /// (an Int) change inside the hunk; and every change the cursor has then
  /// passed lies at or before the hunk's end, so the next hunk, if it starts
  /// after this one ends, meets the same condition.
  lemma CheckComplete(all: seq<Change>, pos: nat, start: nat, end: nat)
    requires pos + 1 < |all| && Sorted(all) && start <= end
    requires forall k :: 0 <= k < pos ==> all[k].line < start
    requires Check(all, pos, start, end).Ok?
    ensures var (ext, internal, p) := Check(all, pos, start, end).value;
      (ext <==> exists k :: 0 <= k < |all| && InHunk(all[k], start, end) && all[k].mode == Ext) &&
      (internal <==> exists k :: 0 <= k < |all| && InHunk(all[k], start, end) && all[k].mode == Int) &&
      forall k :: 0 <= k < p ==> all[k].line <= end
  {
    CheckFinds(all, pos, start, end);
    var (ext, internal, p) := Check(all, pos, start, end).value;
    forall k | 0 <= k < |all| && InHunk(all[k], start, end)
      ensures pos <= k <= p
    {
    }
    forall k | 0 <= k < p
      ensures all[k].line <= end
    {
      if k >= pos {
        assert all[k].line <= all[k + 1].line;
      }
    }
  }

  /// HunkChecker: the deque `d` of changes not yet reached, and the cursor
  /// pair Cur/Next.
  class HunkChecker {
    var d: seq<Change>
    var cur: Change
    var next: Change
    /// The whole list walked so far and to come, and the index of Cur in it.
    ghost var all: seq<Change>
    ghost var pos: nat

    ghost predicate Valid()
      reads this
    {
      pos + 2 + |d| == |all| && all[pos] == cur && all[pos + 1] == next && d == all[pos + 2..]
    }

    /// __init__: appends the two sentinels and pops Cur and Next.
    constructor (changes: seq<Change>)
      ensures Valid() && all == WithSentinels(changes) && pos == 0
    {
      var q := WithSentinels(changes);
      all, pos := q, 0;
      cur, next, d := q[0], q[1], q[2..];
    }

    /// checkHunk: examines Cur, and moves the cursor on while Next is at or
    /// before the hunk's end.
    method CheckHunk(start: nat, end: nat) returns (r: Result<(bool, bool), string>)
      requires Valid()
      modifies this
      ensures r.Ok? ==> Valid() && all == old(all) && Check(all, old(pos), start, end) == Ok((r.value.0, r.value.1, pos))
      ensures r.Err? ==> Check(old(all), old(pos), start, end) == Err(EmptyDeque)
    {
      var hasExt, hasInt := false, false;
      while true
        invariant Valid() && all == old(all) && old(pos) <= pos
        invariant Check(all, old(pos), start, end) == Or(hasExt, hasInt, Check(all, pos, start, end))
        decreases |d|
      {
        ghost var ext0, int0 := hasExt, hasInt;
        if start <= cur.line && cur.line < end {
          if cur.mode == Ext {
            hasExt := true;
          } else if cur.mode == Int {
            hasInt := true;
          }
        }
        assert hasExt == (ext0 || (InHunk(cur, start, end) && cur.mode == Ext));
        assert hasInt == (int0 || (InHunk(cur, start, end) && cur.mode == Int));
        if end < next.line {
          return Ok((hasExt, hasInt));
        }
        if d == [] {
          return Err(EmptyDeque);
        }
        CheckStep(all, pos, start, end, ext0, int0);
        ghost var rest := Check(all, pos + 1, start, end);
        assert Check(all, old(pos), start, end) == Or(hasExt, hasInt, rest);
        assert all[pos + 3..] == d[1..];
        cur, next, d := next, d[0], d[1..];
        pos := pos + 1;
      }
    }
  }

  /// One move of the cursor: the flags found so far, with Cur's added, and
  /// the walk from Next on.
  lemma CheckStep(all: seq<Change>, pos: nat, start: nat, end: nat, ext: bool, internal: bool)
    requires pos + 2 < |all| && all[pos + 1].line <= end
    ensures Or(ext, internal, Check(all, pos, start, end)) ==
      Or(ext || (InHunk(all[pos], start, end) && all[pos].mode == Ext),
         internal || (InHunk(all[pos], start, end) && all[pos].mode == Int),
         Check(all, pos + 1, start, end))
  {
  }

  /// The flags found so far joined with the rest of a walk.
  function Or(ext: bool, internal: bool, r: Result<(bool, bool, nat), string>): Result<(bool, bool, nat), string>
  {
    match r
    case Err(e) => Err(e)
    case Ok((e, i, p)) => Ok((ext || e, internal || i, p))
  }

  /// buildPatch's choice for one hunk: keep it when it has external changes
  /// and no internal ones.
  predicate Keep(ext: bool, internal: bool, extRm: bool, intRm: bool)
  {
    (ext || extRm) && !(internal || intRm)
  }

  /// buildPatch's classification of a hunk as written: the second lookup,
  /// meant for removed lines, asks the added-lines checker about the new
  /// interval again. Gives the decision and both cursors.
  function ClassifyAsWritten(added: seq<Change>, addPos: nat, removed: seq<Change>, rmPos: nat,
                             oldHunk: (nat, nat), newHunk: (nat, nat)): (r: Result<(bool, nat, nat), string>)
    requires addPos + 1 < |added| && rmPos + 1 < |removed|
    ensures r.Ok? ==> r.value.2 == rmPos
  {
    match Check(added, addPos, newHunk.0, newHunk.1)
    case Err(e) => Err(e)
    case Ok((ext, internal, p)) =>
      match Check(added, p, newHunk.0, newHunk.1)
      case Err(e) => Err(e)
      case Ok((extRm, intRm, p2)) => Ok((Keep(ext, internal, extRm, intRm), p2, rmPos))
  }

  /// The classification with the removed-lines checker asked about the old
  /// interval.
  function Classify(added: seq<Change>, addPos: nat, removed: seq<Change>, rmPos: nat,
                    oldHunk: (nat, nat), newHunk: (nat, nat)): (r: Result<(bool, nat, nat), string>)
    requires addPos + 1 < |added| && rmPos + 1 < |removed|
  {
    match Check(added, addPos, newHunk.0, newHunk.1)
    case Err(e) => Err(e)
    case Ok((ext, internal, p)) =>
      match Check(removed, rmPos, oldHunk.0, oldHunk.1)
      case Err(e) => Err(e)
      case Ok((extRm, intRm, q)) => Ok((Keep(ext, internal, extRm, intRm), p, q))
  }

  /// A hunk whose only change removes an external line (line 5 of the old
  /// file, inside the hunk's old interval 3..8), in a file whose only
  /// addition is external and lies in a later hunk (line 20 of the new
  /// file), is dropped as written and kept by the corrected classification.
  lemma ClassifyAsWrittenDropsRemovals()
    ensures var added, removed := WithSentinels([Change(20, Ext)]), WithSentinels([Change(5, Ext)]);
      ClassifyAsWritten(added, 0, removed, 0, (3, 8), (3, 7)) == Ok((false, 0, 0)) &&
      Classify(added, 0, removed, 0, (3, 8), (3, 7)) == Ok((true, 0, 0))
  {
    var added, removed := WithSentinels([Change(20, Ext)]), WithSentinels([Change(5, Ext)]);
    assert added[0].line == 20 && added[2].line == MAXLINES && removed[1].line == MAXLINES;
    assert Check(added, 0, 3, 7) == Ok((false, false, 0));
    assert Check(removed, 0, 3, 8) == Ok((true, false, 0));
  }

  /// With both change lists in line order and both cursors past the changes
  /// before the hunk, the corrected classification keeps a hunk exactly
  /// when an external change lies in its new or old interval and no
  /// internal one does.
  lemma ClassifyKeepsExternalOnly(added: seq<Change>, addPos: nat, removed: seq<Change>, rmPos: nat,
                                  oldHunk: (nat, nat), newHunk: (nat, nat))
    requires addPos + 1 < |added| && rmPos + 1 < |removed| && Sorted(added) && Sorted(removed)
    requires oldHunk.0 <= oldHunk.1 && newHunk.0 <= newHunk.1
    requires forall k :: 0 <= k < addPos ==> added[k].line < newHunk.0
    requires forall k :: 0 <= k < rmPos ==> removed[k].line < oldHunk.0
    requires Classify(added, addPos, removed, rmPos, oldHunk, newHunk).Ok?
    ensures Classify(added, addPos, removed, rmPos, oldHunk, newHunk).value.0 <==>
      ((exists k :: 0 <= k < |added| && InHunk(added[k], newHunk.0, newHunk.1) && added[k].mode == Ext) ||
       (exists k :: 0 <= k < |removed| && InHunk(removed[k], oldHunk.0, oldHunk.1) && removed[k].mode == Ext)) &&
      !(exists k :: 0 <= k < |added| && InHunk(added[k], newHunk.0, newHunk.1) && added[k].mode == Int) &&
      !(exists k :: 0 <= k < |removed| && InHunk(removed[k], oldHunk.0, oldHunk.1) && removed[k].mode == Int)
  {
    CheckComplete(added, addPos, newHunk.0, newHunk.1);
    CheckComplete(removed, rmPos, oldHunk.0, oldHunk.1);
  }
}
