// fix-repo.py's per-file text handling: the comment leader of a file, the
// insertion of marker comments into its lines, and the --exclude/--include
// file filter.
module FixRepoText {
  import opened Util

  /// The sentinel line number of the script, past any real line.
  const MAXLINES: nat := 10000000

  const EmptyDeque := "pop from an empty deque"

  /// The index of the last `c` in `s`, or -1 (str.rfind).
  function LastIndex(s: string, c: char): (r: int)
    ensures -1 <= r < |s|
    ensures r >= 0 ==> s[r] == c
    ensures forall k :: r < k < |s| ==> s[k] != c
  {
    LastBefore(s, c, |s|)
  }

  /// The index of the last `c` among the first `n` characters of `s`, or -1.
  function LastBefore(s: string, c: char, n: nat): (r: int)
    requires n <= |s|
    ensures -1 <= r < n
    ensures r >= 0 ==> s[r] == c
    ensures forall k :: r < k < n ==> s[k] != c
  {
    if n == 0 then -1
    else if s[n - 1] == c then n - 1
    else LastBefore(s, c, n - 1)
  }

  /// os.path.basename: the text after the last '/'.
  function BaseName(path: string): string
  {
    path[LastIndex(path, '/') + 1..]
  }

  /// os.path.splitext's extension: from the last '.' of the file name on,
  /// unless that dot is preceded in the name only by dots.
  function Extension(path: string): string
  {
    var sep := LastIndex(path, '/');
    var dot := LastIndex(path, '.');
    if dot > sep && exists k :: sep + 1 <= k < dot && path[k] != '.' then path[dot..] else ""
  }

  /// commentMap: the comment leader of the known extensions.
  function CommentMap(ext: string): Option<string>
  {
    if ext in {".h", ".hpp", ".cc", ".cpp", ".php"} then Some("//")
    else if ext == ".cfg" then Some("#")
    else if ext == ".ll" then Some(";")
    else None
  }

  /// getComment: the --comment option when given, otherwise the leader of
  /// the file's extension, ";" for LLVMBuild.txt and "#" for any other
  /// ".txt"; None for anything else.
  function GetComment(comment: Option<string>, src: string): (r: Option<string>)
    ensures comment.Some? ==> r == comment
  {
    if comment.Some? then comment else LeaderOf(Extension(src), BaseName(src))
  }

  /// The comment leader of a file by its extension and base name.
  function LeaderOf(ext: string, base: string): Option<string>
  {
    if CommentMap(ext).Some? then CommentMap(ext)
    else if ext == ".txt" then (if base == "LLVMBuild.txt" then Some(";") else Some("#"))
    else None
  }

  /// A file name `stem + ext` under a directory `dir` (empty or ending in
  /// '/'), with `ext` a dot and no further dot or slash, and `stem` holding
  /// something besides dots, has `ext` as its extension and `stem + ext` as
  /// its base name.
  lemma ExtensionOf(dir: string, stem: string, ext: string)
    requires dir == [] || dir[|dir| - 1] == '/'
    requires stem != [] && stem[0] != '.' && NoneIs(stem, '/')
    requires |ext| >= 1 && ext[0] == '.' && NoneIs(ext, '/') && NoneIs(ext[1..], '.')
    ensures Extension(dir + stem + ext) == ext && BaseName(dir + stem + ext) == stem + ext
  {
    var path := dir + stem + ext;
    LastSeparator(dir, stem, ext, path);
    LastDot(dir, stem, ext, path);
    assert path[|dir|] == stem[0];
    assert path[|dir| + |stem|..] == ext;
    assert path[|dir|..] == stem + ext;
  }

  lemma LastSeparator(dir: string, stem: string, ext: string, path: string)
    requires dir == [] || dir[|dir| - 1] == '/'
    requires NoneIs(stem, '/') && NoneIs(ext, '/') && path == dir + stem + ext
    ensures LastIndex(path, '/') == |dir| - 1
  {
    forall k | |dir| <= k < |path|
      ensures path[k] != '/'
    {
      if k < |dir| + |stem| {
        assert path[k] == stem[k - |dir|];
      } else {
        assert path[k] == ext[k - |dir| - |stem|];
      }
    }
    if dir != [] {
      assert path[|dir| - 1] == '/';
    }
  }

  lemma LastDot(dir: string, stem: string, ext: string, path: string)
    requires |ext| >= 1 && ext[0] == '.' && NoneIs(ext[1..], '.') && path == dir + stem + ext
    ensures LastIndex(path, '.') == |dir| + |stem|
  {
    var dot := |dir| + |stem|;
    forall k | dot < k < |path|
      ensures path[k] != '.'
    {
      assert path[k] == ext[1..][k - dot - 1];
    }
    assert path[dot] == '.';
  }

  predicate NoneIs(s: string, c: char)
  {
    forall k :: 0 <= k < |s| ==> s[k] != c
  }

  /// The comment leader of a file named `stem + ext` when no --comment is
  /// given.
  lemma CommentForFile(dir: string, stem: string, ext: string)
    requires dir == [] || dir[|dir| - 1] == '/'
    requires stem != [] && stem[0] != '.' && NoneIs(stem, '/')
    requires |ext| >= 1 && ext[0] == '.' && NoneIs(ext, '/') && NoneIs(ext[1..], '.')
    ensures ext in {".h", ".hpp", ".cc", ".cpp", ".php"} ==> GetComment(None, dir + stem + ext) == Some("//")
    ensures ext == ".cfg" ==> GetComment(None, dir + stem + ext) == Some("#")
    ensures ext == ".ll" ==> GetComment(None, dir + stem + ext) == Some(";")
    ensures ext == ".txt" ==> GetComment(None, dir + stem + ext) == if stem == "LLVMBuild" then Some(";") else Some("#")
    ensures ext !in {".h", ".hpp", ".cc", ".cpp", ".php", ".cfg", ".ll", ".txt"} ==> GetComment(None, dir + stem + ext) == None
  {
    if ext == ".txt" {
      TextFileComment(dir, stem);
    } else {
      ExtensionOf(dir, stem, ext);
    }
  }

  /// A ".txt" file takes ";" when named LLVMBuild.txt and "#" otherwise.
  lemma TextFileComment(dir: string, stem: string)
    requires dir == [] || dir[|dir| - 1] == '/'
    requires stem != [] && stem[0] != '.' && NoneIs(stem, '/')
    ensures GetComment(None, dir + stem + ".txt") == if stem == "LLVMBuild" then Some(";") else Some("#")
  {
    assert NoneIs(".txt"[1..], '.');
    ExtensionOf(dir, stem, ".txt");
    TextName(stem);
  }

  lemma TextName(stem: string)
    ensures stem + ".txt" == "LLVMBuild.txt" <==> stem == "LLVMBuild"
  {
    var name := stem + ".txt";
    if name == "LLVMBuild.txt" {
      assert stem == name[..|stem|];
    }
  }

  /// A file name without a dot, such as a Makefile, has no comment leader
  /// of its own.
  lemma NoExtensionNoComment(dir: string, name: string)
    requires dir == [] || dir[|dir| - 1] == '/'
    requires NoneIs(name, '.') && NoneIs(name, '/')
    ensures GetComment(None, dir + name) == None
  {
    var path := dir + name;
    assert path == dir + name + [];
    LastSeparator(dir, name, [], path);
    assert LastIndex(path, '.') < |dir| by {
      forall k | |dir| <= k < |path|
        ensures path[k] != '.'
      {
        assert path[k] == name[k - |dir|];
      }
    }
  }

  /// Python's str.isspace, for the ASCII whitespace.
  predicate IsSpace(c: char)
  {
    c == ' ' || c == '\t' || c == '\n' || c == '\r' || c as int == 11 || c as int == 12
  }

  /// rstrip(): `s` without its trailing whitespace.
  function RStrip(s: string): (r: string)
    ensures |r| <= |s| && r == s[..|r|]
    ensures r == [] || !IsSpace(r[|r| - 1])
    ensures forall k :: |r| <= k < |s| ==> IsSpace(s[k])
  {
    s[..SpaceRunBefore(s, |s|)]
  }

  /// The start of the run of whitespace that ends at `n`.
  function SpaceRunBefore(s: string, n: nat): (m: nat)
    requires n <= |s|
    ensures m <= n && (m == 0 || !IsSpace(s[m - 1]))
    ensures forall k :: m <= k < n ==> IsSpace(s[k])
  {
    if n > 0 && IsSpace(s[n - 1]) then SpaceRunBefore(s, n - 1) else n
  }

  /// lstrip(): `s` without its leading whitespace.
  function LStrip(s: string): (r: string)
    ensures |r| <= |s| && r == s[|s| - |r|..]
    ensures r == [] || !IsSpace(r[0])
    ensures forall k :: 0 <= k < |s| - |r| ==> IsSpace(s[k])
  {
    s[SpaceRunFrom(s, 0)..]
  }

  /// The end of the run of whitespace that starts at `i`.
  function SpaceRunFrom(s: string, i: nat): (m: nat)
    requires i <= |s|
    ensures i <= m <= |s| && (m == |s| || !IsSpace(s[m]))
    ensures forall k :: i <= k < m ==> IsSpace(s[k])
    decreases |s| - i
  {
    if i < |s| && IsSpace(s[i]) then SpaceRunFrom(s, i + 1) else i
  }

  /// strip(): both ends.
  function Strip(s: string): string
  {
    LStrip(RStrip(s))
  }

  /// A marker to write before (or, in "single" style, onto) the line
  /// numbered `pos`.
  datatype Marker = Marker(pos: nat, style: string, text: string)

  /// The marker appended after the collected ones.
  const Sentinel := Marker(MAXLINES, "final", "")

  /// What is written for a line carrying marker `m`: a "single" marker
  /// joins the line when both fit in 80 columns, and any other marker is
  /// written as a line of its own before it.
  function Place(m: Marker, line: string): seq<string>
  {
    if m.style == "single" && |RStrip(line)| + |Strip(m.text)| + 2 <= 80
    then [RStrip(line) + " " + Strip(m.text) + "\n"]
    else [m.text + "\n", line]
  }

  /// Prefixing `p` to the output of a run that may fail.
  function Prepend(p: seq<string>, r: Result<seq<string>, string>): Result<seq<string>, string>
  {
    if r.Ok? then Ok(p + r.value) else r
  }

  /// The writes of applyMarkers from the line numbered `count` on, with
  /// `next` the marker in hand and `queue` the deque behind it; Err when the
  /// deque runs dry.
  function Emit(lines: seq<string>, count: nat, next: Marker, queue: seq<Marker>): Result<seq<string>, string>
  {
    if lines == [] then Ok([])
    else if count == next.pos then
      if queue == [] then Err(EmptyDeque)
      else Prepend(Place(next, lines[0]), Emit(lines[1..], count + 1, queue[0], queue[1..]))
    else Prepend([lines[0]], Emit(lines[1..], count + 1, next, queue))
  }

  /// applyMarkers on the file's lines, its result the writes in order.
  function Rewritten(lines: seq<string>, markers: seq<Marker>): Result<seq<string>, string>
  {
    var q := markers + [Sentinel];
    Emit(lines, 1, q[0], q[1..])
  }

  /// applyMarkers: one pass over the lines, popping the next marker each
  /// time one is placed.
  method ApplyMarkers(lines: seq<string>, markers: seq<Marker>) returns (r: Result<seq<string>, string>)
    ensures r == Rewritten(lines, markers)
  {
    var queue := markers + [Sentinel];
    var next := queue[0];
    queue := queue[1..];
    var count := 1;
    var out := [];
    var i := 0;
    assert lines[0..] == lines;
    PrependEmpty(Rewritten(lines, markers));
    while i < |lines|
      invariant 0 <= i <= |lines| && count == i + 1
      invariant Rewritten(lines, markers) == Prepend(out, Emit(lines[i..], count, next, queue))
    {
      var line := lines[i];
      EmitStep(lines, i, count, next, queue);
      if count == next.pos {
        var placed := Place(next, line);
        if queue == [] {
          return Err(EmptyDeque);
        }
        PrependAppend(out, placed, Emit(lines[i + 1..], count + 1, queue[0], queue[1..]));
        out := out + placed;
        next, queue := queue[0], queue[1..];
      } else {
        PrependAppend(out, [line], Emit(lines[i + 1..], count + 1, next, queue));
        out := out + [line];
      }
      count := count + 1;
      i := i + 1;
    }
    assert lines[i..] == [] && out + [] == out;
    return Ok(out);
  }

  /// One step of the walk, at the line with index `i`.
  lemma EmitStep(lines: seq<string>, i: nat, count: nat, next: Marker, queue: seq<Marker>)
    requires i < |lines|
    ensures Emit(lines[i..], count, next, queue) ==
      if count != next.pos then Prepend([lines[i]], Emit(lines[i + 1..], count + 1, next, queue))
      else if queue == [] then Err(EmptyDeque)
      else Prepend(Place(next, lines[i]), Emit(lines[i + 1..], count + 1, queue[0], queue[1..]))
  {
    assert lines[i..][1..] == lines[i + 1..];
  }

  lemma PrependEmpty(r: Result<seq<string>, string>)
    ensures Prepend([], r) == r
  {
    if r.Ok? {
      assert [] + r.value == r.value;
    }
  }

  lemma PrependAppend(a: seq<string>, b: seq<string>, r: Result<seq<string>, string>)
    ensures Prepend(a, Prepend(b, r)) == Prepend(a + b, r)
  {
    if r.Ok? {
      assert a + (b + r.value) == (a + b) + r.value;
    }
  }

  /// The first marker for line `n`.
  function MarkerAt(markers: seq<Marker>, n: nat): (r: Option<Marker>)
    ensures r.Some? ==> r.value in markers && r.value.pos == n
    ensures r.None? ==> forall a :: 0 <= a < |markers| ==> markers[a].pos != n
  {
    if markers == [] then None
    else if markers[0].pos == n then Some(markers[0])
    else MarkerAt(markers[1..], n)
  }

  /// The intended output for the lines numbered from `first` on: each line
  /// once and in order, with the marker for its number, if any, placed at
  /// it.
  function Expected(lines: seq<string>, markers: seq<Marker>, first: nat): seq<string>
  {
    if lines == [] then []
    else
      var chunk := match MarkerAt(markers, first) case None => [lines[0]] case Some(m) => Place(m, lines[0]);
      chunk + Expected(lines[1..], markers, first + 1)
  }

  /// Marker positions are real line numbers, strictly ascending.
  predicate Ascending(markers: seq<Marker>)
  {
    (forall a :: 0 <= a < |markers| ==> markers[a].pos >= 1) &&
    (forall a, b :: 0 <= a < b < |markers| ==> markers[a].pos < markers[b].pos)
  }

  /// With ascending markers and a file shorter than MAXLINES lines,
  /// applyMarkers writes what Expected says: every line once and in order,
  /// every marker at its line, and no marker past the last line.
  lemma RewrittenExpected(lines: seq<string>, markers: seq<Marker>)
    requires Ascending(markers) && |lines| < MAXLINES
    ensures Rewritten(lines, markers) == Ok(Expected(lines, markers, 1))
  {
    EmitExpected(lines, markers, 1, 0);
  }

  /// The walk from line `count`, with the first `j` markers placed and
  /// the rest all at or after `count`.
  lemma {:induction false} EmitExpected(lines: seq<string>, markers: seq<Marker>, count: nat, j: nat)
    requires Ascending(markers) && 1 <= count && count + |lines| <= MAXLINES && j <= |markers|
    requires forall a :: 0 <= a < j ==> markers[a].pos < count
    requires forall a :: j <= a < |markers| ==> markers[a].pos >= count
    ensures var q := (markers + [Sentinel])[j..];
      Emit(lines, count, q[0], q[1..]) == Ok(Expected(lines, markers, count))
    decreases |lines|
  {
    var q := (markers + [Sentinel])[j..];
    if lines != [] {
      var more := lines[1..];
      if count == q[0].pos {
        assert j < |markers| && q[0] == markers[j];
        MarkerAtFirst(markers, j);
        assert q[1..] == (markers + [Sentinel])[j + 1..];
        EmitExpected(more, markers, count + 1, j + 1);
        EmitPlace(lines, count, q, Expected(more, markers, count + 1));
      } else {
        assert MarkerAt(markers, count) == None by {
          forall a | 0 <= a < |markers|
            ensures markers[a].pos != count
          {
            if a > j {
              assert markers[j].pos < markers[a].pos;
            }
          }
          MarkerAtNone(markers, count);
        }
        EmitExpected(more, markers, count + 1, j);
        EmitPass(lines, count, q[0], q[1..], Expected(more, markers, count + 1));
      }
    }
  }

  /// A line whose number is the marker in hand is placed with it.
  lemma EmitPlace(lines: seq<string>, count: nat, q: seq<Marker>, tail: seq<string>)
    requires lines != [] && |q| >= 2 && count == q[0].pos
    requires Emit(lines[1..], count + 1, q[1], q[2..]) == Ok(tail)
    ensures Emit(lines, count, q[0], q[1..]) == Ok(Place(q[0], lines[0]) + tail)
  {
    assert q[1..][0] == q[1] && q[1..][1..] == q[2..];
  }

  /// Any other line is written as it is.
  lemma EmitPass(lines: seq<string>, count: nat, next: Marker, queue: seq<Marker>, tail: seq<string>)
    requires lines != [] && count != next.pos
    requires Emit(lines[1..], count + 1, next, queue) == Ok(tail)
    ensures Emit(lines, count, next, queue) == Ok([lines[0]] + tail)
  {
  }

  /// Among ascending markers, the one at index `j` is the first for its
  /// line.
  lemma {:induction false} MarkerAtFirst(markers: seq<Marker>, j: nat)
    requires Ascending(markers) && j < |markers|
    ensures MarkerAt(markers, markers[j].pos) == Some(markers[j])
  {
    if j > 0 {
      assert markers[0].pos < markers[j].pos;
      assert Ascending(markers[1..]) by {
        forall a, b | 0 <= a < b < |markers| - 1
          ensures markers[1..][a].pos < markers[1..][b].pos
        {
          assert markers[1..][a] == markers[a + 1] && markers[1..][b] == markers[b + 1];
        }
      }
      MarkerAtFirst(markers[1..], j - 1);
    }
  }

  /// No marker for line `n` means MarkerAt finds none.
  lemma {:induction false} MarkerAtNone(markers: seq<Marker>, n: nat)
    requires forall a :: 0 <= a < |markers| ==> markers[a].pos != n
    ensures MarkerAt(markers, n) == None
  {
    if markers != [] {
      assert forall a :: 0 <= a < |markers| - 1 ==> markers[1..][a] == markers[a + 1];
      MarkerAtNone(markers[1..], n);
    }
  }

  /// Markers placed after the last line make no difference.
  lemma {:induction false} ExpectedIgnoresLater(lines: seq<string>, markers: seq<Marker>, extra: seq<Marker>, first: nat)
    requires forall a :: 0 <= a < |extra| ==> extra[a].pos >= first + |lines|
    ensures Expected(lines, markers + extra, first) == Expected(lines, markers, first)
    decreases |lines|
  {
    if lines != [] {
      MarkerAtAppend(markers, extra, first);
      ExpectedIgnoresLater(lines[1..], markers, extra, first + 1);
    }
  }

  /// Markers appended for other lines leave MarkerAt(_, n) as it was.
  lemma {:induction false} MarkerAtAppend(markers: seq<Marker>, extra: seq<Marker>, n: nat)
    requires forall a :: 0 <= a < |extra| ==> extra[a].pos != n
    ensures MarkerAt(markers + extra, n) == MarkerAt(markers, n)
  {
    if markers == [] {
      assert markers + extra == extra;
      MarkerAtNone(extra, n);
    } else {
      assert (markers + extra)[1..] == markers[1..] + extra;
      MarkerAtAppend(markers[1..], extra, n);
    }
  }

  /// re.search(pattern, src, re.IGNORECASE), left as a parameter.
  type Search = (string, string) -> bool

  /// Some pattern of `patterns` is found in `src`.
  function AnyMatch(patterns: seq<string>, src: string, search: Search): (r: bool)
    ensures r <==> exists k :: 0 <= k < |patterns| && search(patterns[k], src)
  {
    if patterns == [] then false
    else search(patterns[0], src) || AnyMatch(patterns[1..], src, search)
  }

  /// shouldProcessFile: only files; none matching an --exclude pattern;
  /// and, when --include patterns are given, only files one of them
  /// matches. A missing option is the empty list.
  function ShouldProcessFile(isFile: bool, excludes: seq<string>, includes: seq<string>, src: string, search: Search): (r: bool)
    ensures r <==> isFile && (forall k :: 0 <= k < |excludes| ==> !search(excludes[k], src)) &&
                   (includes == [] || exists k :: 0 <= k < |includes| && search(includes[k], src))
  {
    if !isFile then false
    else if AnyMatch(excludes, src, search) then false
    else if includes == [] then true
    else AnyMatch(includes, src, search)
  }
}
