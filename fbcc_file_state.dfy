// The fbcc plugin's include tracker (FileState): a list of file records that
// only grows and a stack of record indices whose top is the current file.
module FbccFileState {
  import opened Util

  /// A file on disk, identified by its path.
  datatype FileEntry = FileEntry(path: string)

  /// One file transition seen by the preprocessor. `fileID` 0 is the invalid
  /// FileID; `inclusionLoc` is an opaque source location.
  datatype FileRecord = FileRecord(
    index: nat,
    entry: Option<FileEntry>,
    fileID: nat,
    inclusionLoc: nat,
    depth: nat,
    parentIndex: nat,
    asWritten: string,
    isMainFile: bool,
    didEnterFile: bool,
    isSystemHeader: bool,
    isFilenameChangeOnly: bool)

  /// The FileRecord constructor: the given index and entry, everything else
  /// at its default (depth 0, parent 0, invalid FileID, every flag false).
  function NewRecord(index: nat, entry: Option<FileEntry>): (r: FileRecord)
    ensures r.index == index && r.entry == entry && r.fileID == 0
    ensures r.depth == 0 && r.parentIndex == 0 && r.asWritten == ""
    ensures !r.isMainFile && !r.didEnterFile && !r.isSystemHeader && !r.isFilenameChangeOnly
  {
    FileRecord(index, entry, 0, 0, 0, 0, "", false, false, false, false)
  }

  predicate IsRealFile(r: FileRecord)
  {
    r.entry.Some?
  }

  /// getThisFileDisplayName: the path of a real file, else the name as written.
  function DisplayName(r: FileRecord): (name: string)
    ensures IsRealFile(r) ==> name == r.entry.value.path
    ensures !IsRealFile(r) ==> name == r.asWritten
  {
    if r.entry.Some? then r.entry.value.path else r.asWritten
  }

  /// The tracker's state: the record list and the stack, top last.
  datatype State = State(records: seq<FileRecord>, stack: seq<nat>)

  /// The documented invariants: records is never empty, record `i` has index
  /// `i`, record 0 is the main file, a record's parent comes before it, the
  /// stack holds record indices and its bottom is a main-file record.
  ghost predicate Valid(s: State)
  {
    |s.records| > 0 && s.records[0].isMainFile &&
    (forall i :: 0 <= i < |s.records| ==> s.records[i].index == i) &&
    (forall i :: 0 < i < |s.records| ==> s.records[i].parentIndex < i) &&
    (forall k :: 0 <= k < |s.stack| ==> s.stack[k] < |s.records|) &&
    (s.stack != [] ==> s.records[s.stack[0]].isMainFile)
  }

  /// What no operation changes: earlier records keep their index, parent,
  /// depth, name and main-file flag.
  ghost predicate Grown(a: seq<FileRecord>, b: seq<FileRecord>)
  {
    |a| <= |b| &&
    forall i :: 0 <= i < |a| ==>
      b[i].index == a[i].index && b[i].parentIndex == a[i].parentIndex && b[i].depth == a[i].depth &&
      b[i].asWritten == a[i].asWritten && b[i].isMainFile == a[i].isMainFile
  }

  function Top(s: State): nat
    requires s.stack != []
  {
    s.stack[|s.stack| - 1]
  }

  /// The constructor: record 0 for the main file, the stack holding it alone.
  function Initial(mainEntry: Option<FileEntry>): (s: State)
    ensures Valid(s) && |s.records| == 1 && s.stack == [0]
    ensures s.records[0] == NewRecord(0, mainEntry).(isMainFile := true)
  {
    State([NewRecord(0, mainEntry).(isMainFile := true)], [0])
  }

  /// addFile: appends a record whose index is the previous record count.
  function AddFile(s: State, entry: Option<FileEntry>): (r: State)
    requires Valid(s)
    ensures Valid(r) && r.stack == s.stack && r.records == s.records + [NewRecord(|s.records|, entry)]
  {
    State(s.records + [NewRecord(|s.records|, entry)], s.stack)
  }

  /// onInclude: a record for the included file, one deeper than the current
  /// file, its child, and a system header when included with angle brackets
  /// or from a system header. The stack does not change.
  function AfterInclude(s: State, loc: nat, entry: Option<FileEntry>, asWritten: string, isAngled: bool): (r: State)
    requires Valid(s) && s.stack != []
    ensures Valid(r) && r.stack == s.stack && Grown(s.records, r.records)
    ensures |r.records| == |s.records| + 1 && r.records[..|s.records|] == s.records
    ensures var rec, parent := r.records[|s.records|], s.records[Top(s)];
      rec.index == |s.records| && rec.entry == entry && rec.inclusionLoc == loc &&
      rec.depth == parent.depth + 1 && rec.parentIndex == Top(s) && rec.asWritten == asWritten &&
      rec.isSystemHeader == (isAngled || parent.isSystemHeader) &&
      !rec.isMainFile && !rec.didEnterFile && !rec.isFilenameChangeOnly && rec.fileID == 0
  {
    var parent := s.records[Top(s)];
    var a := AddFile(s, entry);
    var n := |s.records|;
    State(a.records[n := a.records[n].(inclusionLoc := loc, depth := parent.depth + 1, parentIndex := parent.index,
                                      asWritten := asWritten, isSystemHeader := isAngled || parent.isSystemHeader)],
          a.stack)
  }

  /// onPragmaSystemHeader: the current file becomes a system header.
  function AfterPragmaSystemHeader(s: State): (r: State)
    requires Valid(s) && s.stack != []
    ensures Valid(r) && r.stack == s.stack && Grown(s.records, r.records) && |r.records| == |s.records|
    ensures r.records[Top(s)].isSystemHeader
    ensures forall i :: 0 <= i < |s.records| && i != Top(s) ==> r.records[i] == s.records[i]
  {
    State(s.records[Top(s) := s.records[Top(s)].(isSystemHeader := true)], s.stack)
  }

  /// onExitFile: pops the current file.
  function AfterExitFile(s: State): (r: State)
    requires Valid(s) && s.stack != []
    ensures Valid(r) && r.records == s.records && |r.stack| == |s.stack| - 1
    ensures r.stack == s.stack[..|s.stack| - 1]
  {
    State(s.records, s.stack[..|s.stack| - 1])
  }

  /// onEnterFile: the last record is entered with the given FileID and
  /// becomes the current file.
  function AfterEnterFile(s: State, fid: nat): (r: State)
    requires Valid(s) && s.stack != []
    ensures Valid(r) && Grown(s.records, r.records) && |r.records| == |s.records|
    ensures |r.stack| == |s.stack| + 1 && r.stack[..|s.stack|] == s.stack && Top(r) == |s.records| - 1
    ensures var last := r.records[|s.records| - 1]; last.didEnterFile && last.fileID == fid
    ensures forall i :: 0 <= i < |s.records| - 1 ==> r.records[i] == s.records[i]
  {
    var n := |s.records| - 1;
    State(s.records[n := s.records[n].(fileID := fid, didEnterFile := true)], s.stack + [s.records[n].index])
  }

  /// onFilenameChanged: a `#line` name change. A new record, entered, with
  /// the current file's depth, main-file and system-header flags and the
  /// current file as parent, replaces the current file on the stack.
  function AfterFilenameChanged(s: State, name: string): (r: State)
    requires Valid(s) && s.stack != []
    ensures Valid(r) && Grown(s.records, r.records)
    ensures |r.records| == |s.records| + 1 && r.records[..|s.records|] == s.records
    ensures |r.stack| == |s.stack| && r.stack[..|s.stack| - 1] == s.stack[..|s.stack| - 1] && Top(r) == |s.records|
    ensures var rec, prev := r.records[|s.records|], s.records[Top(s)];
      rec.depth == prev.depth && rec.isMainFile == prev.isMainFile && rec.isSystemHeader == prev.isSystemHeader &&
      rec.parentIndex == Top(s) && rec.asWritten == name && rec.didEnterFile && rec.isFilenameChangeOnly &&
      rec.entry.None?
  {
    var prev := s.records[Top(s)];
    var a := AddFile(s, None);
    var n := |s.records|;
    var records := a.records[n := a.records[n].(depth := prev.depth, isMainFile := prev.isMainFile,
                                                 parentIndex := prev.index, asWritten := name, didEnterFile := true,
                                                 isSystemHeader := prev.isSystemHeader, isFilenameChangeOnly := true)];
    State(records, s.stack[..|s.stack| - 1] + [n])
  }

  /// getRecord: the record with that index, or nothing past the end.
  function GetRecord(s: State, i: nat): (r: Option<FileRecord>)
    ensures r.Some? <==> i < |s.records|
    ensures Valid(s) && r.Some? ==> r.value == s.records[i] && r.value.index == i
  {
    if i < |s.records| then Some(s.records[i]) else None
  }

  /// The preprocessor callbacks, as a trace.
  datatype Event =
    | Include(loc: nat, entry: Option<FileEntry>, asWritten: string, isAngled: bool)
    | Enter(fid: nat)
    | FilenameChange(name: string)
    | Exit
    | PragmaSystemHeader

  /// The state after each callback of `events` in turn, or None once a
  /// callback finds the stack empty (after preprocessing has ended).
  function Replay(s: State, events: seq<Event>): (r: Option<State>)
    requires Valid(s)
    ensures r.Some? ==> Valid(r.value)
    decreases |events|
  {
    if events == [] then Some(s)
    else if s.stack == [] then None
    else
      var next := match events[0]
        case Include(loc, entry, w, angled) => AfterInclude(s, loc, entry, w, angled)
        case Enter(fid) => AfterEnterFile(s, fid)
        case FilenameChange(name) => AfterFilenameChanged(s, name)
        case Exit => AfterExitFile(s)
        case PragmaSystemHeader => AfterPragmaSystemHeader(s);
      Replay(next, events[1..])
  }

  function CountEnters(events: seq<Event>): nat
  {
    if events == [] then 0 else (if events[0].Enter? then 1 else 0) + CountEnters(events[1..])
  }

  function CountExits(events: seq<Event>): nat
  {
    if events == [] then 0 else (if events[0].Exit? then 1 else 0) + CountExits(events[1..])
  }

  function CountNewRecords(events: seq<Event>): nat
  {
    if events == [] then 0
    else (if events[0].Include? || events[0].FilenameChange? then 1 else 0) + CountNewRecords(events[1..])
  }

  lemma {:induction false} GrownTransitive(a: seq<FileRecord>, b: seq<FileRecord>, c: seq<FileRecord>)
    requires Grown(a, b) && Grown(b, c)
    ensures Grown(a, c)
  {
  }

  /// Over any trace: the records only grow, one per inclusion or name
  /// change, earlier records keep their identity, and the stack height is
  /// the entries minus the exits.
  lemma {:induction false} ReplayAccounting(s: State, events: seq<Event>)
    requires Valid(s) && Replay(s, events).Some?
    ensures var r := Replay(s, events).value;
      Grown(s.records, r.records) &&
      |r.records| == |s.records| + CountNewRecords(events) &&
      |r.stack| + CountExits(events) == |s.stack| + CountEnters(events)
    decreases |events|
  {
    if events != [] {
      var next := match events[0]
        case Include(loc, entry, w, angled) => AfterInclude(s, loc, entry, w, angled)
        case Enter(fid) => AfterEnterFile(s, fid)
        case FilenameChange(name) => AfterFilenameChanged(s, name)
        case Exit => AfterExitFile(s)
        case PragmaSystemHeader => AfterPragmaSystemHeader(s);
      assert Replay(s, events) == Replay(next, events[1..]);
      ReplayAccounting(next, events[1..]);
      GrownTransitive(s.records, next.records, Replay(s, events).value.records);
    }
  }

  /// The tracker, updated in place by the preprocessor callbacks.
  class FileState {
    var records: seq<FileRecord>
    var stack: seq<nat>

    function Snapshot(): State
      reads this
    {
      State(records, stack)
    }

    ghost predicate Inv()
      reads this
    {
      Valid(Snapshot())
    }

    constructor (mainEntry: Option<FileEntry>)
      ensures Inv() && Snapshot() == Initial(mainEntry)
    {
      records := [];
      stack := [];
      new;
      var index := AddFileHere(mainEntry);
      records := records[index := records[index].(isMainFile := true)];
      stack := stack + [index];
    }

    /// addFile on the object; before the constructor finished it also
    /// appends to an empty list.
    method AddFileHere(entry: Option<FileEntry>) returns (index: nat)
      modifies this
      ensures records == old(records) + [NewRecord(|old(records)|, entry)] && stack == old(stack)
      ensures index == |old(records)|
    {
      index := |records|;
      records := records + [NewRecord(index, entry)];
    }

    method OnInclude(loc: nat, entry: Option<FileEntry>, asWritten: string, isAngled: bool)
      requires Inv() && stack != []
      modifies this
      ensures Inv() && Snapshot() == AfterInclude(old(Snapshot()), loc, entry, asWritten, isAngled)
    {
      var parent := records[stack[|stack| - 1]];
      var index := AddFileHere(entry);
      records := records[index := records[index].(inclusionLoc := loc, depth := parent.depth + 1,
                                                   parentIndex := parent.index, asWritten := asWritten,
                                                   isSystemHeader := isAngled || parent.isSystemHeader)];
    }

    method OnPragmaSystemHeader()
      requires Inv() && stack != []
      modifies this
      ensures Inv() && Snapshot() == AfterPragmaSystemHeader(old(Snapshot()))
    {
      var top := stack[|stack| - 1];
      records := records[top := records[top].(isSystemHeader := true)];
    }

    method OnExitFile()
      requires Inv() && stack != []
      modifies this
      ensures Inv() && Snapshot() == AfterExitFile(old(Snapshot()))
    {
      stack := stack[..|stack| - 1];
    }

    method OnEnterFile(fid: nat)
      requires Inv() && stack != []
      modifies this
      ensures Inv() && Snapshot() == AfterEnterFile(old(Snapshot()), fid)
    {
      var last := |records| - 1;
      records := records[last := records[last].(fileID := fid, didEnterFile := true)];
      stack := stack + [records[last].index];
    }

    method OnFilenameChanged(name: string)
      requires Inv() && stack != []
      modifies this
      ensures Inv() && Snapshot() == AfterFilenameChanged(old(Snapshot()), name)
    {
      var prev := records[stack[|stack| - 1]];
      var index := AddFileHere(None);
      records := records[index := records[index].(depth := prev.depth, isMainFile := prev.isMainFile,
                                                   parentIndex := prev.index, asWritten := name,
                                                   didEnterFile := true, isSystemHeader := prev.isSystemHeader,
                                                   isFilenameChangeOnly := true)];
      stack := stack[..|stack| - 1];
      stack := stack + [index];
    }
  }
}
