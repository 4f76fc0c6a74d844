// The fbcc plugin's `key=val` argument parser (Options::Parse / HandleArg).
module FbccOptions {
  import opened Util

  /// The option fields, with the defaults of the struct declaration.
  datatype Settings = Settings(enabled: bool, outFile: string, counts: bool, countsPerKind: bool,
                               includes: bool, rawTokens: bool)

  const Defaults := Settings(true, "", false, false, false, false)

  /// The value an option key reads back.
  datatype Value = Flag(on: bool) | Text(text: string)

  /// The value stored under `key`, or None for a key no option has.
  function Get(s: Settings, key: string): Option<Value>
  {
    if key == "Enabled" then Some(Flag(s.enabled))
    else if key == "OutFile" then Some(Text(s.outFile))
    else if key == "Counts" then Some(Flag(s.counts))
    else if key == "CountsPerKind" then Some(Flag(s.countsPerKind))
    else if key == "Includes" then Some(Flag(s.includes))
    else if key == "RawTokens" then Some(Flag(s.rawTokens))
    else None
  }

  predicate KnownKey(key: string)
  {
    Get(Defaults, key).Some?
  }

  /// Settings that read back the same under every key are the same.
  lemma GetDetermines(s: Settings, t: Settings)
    requires forall key :: Get(s, key) == Get(t, key)
    ensures s == t
  {
    assert Get(s, "Enabled") == Get(t, "Enabled");
    assert Get(s, "OutFile") == Get(t, "OutFile");
    assert Get(s, "Counts") == Get(t, "Counts");
    assert Get(s, "CountsPerKind") == Get(t, "CountsPerKind");
    assert Get(s, "Includes") == Get(t, "Includes");
    assert Get(s, "RawTokens") == Get(t, "RawTokens");
  }

  /// boolVal: only the text "1" is true.
  predicate BoolVal(val: string)
  {
    val == "1"
  }

  /// Position of the first '=' in `s` at or after `from`.
  function FindEq(s: string, from: nat): (r: Option<nat>)
    requires from <= |s|
    ensures r.None? ==> forall k :: from <= k < |s| ==> s[k] != '='
    ensures r.Some? ==>
      from <= r.value < |s| && s[r.value] == '=' && forall k :: from <= k < r.value ==> s[k] != '='
    decreases |s| - from
  {
    if from == |s| then None
    else if s[from] == '=' then Some(from)
    else FindEq(s, from + 1)
  }

  /// The key/value split of one argument: the text before the first '='
  /// and everything after it, or the whole argument and "1" without '='.
  function SplitArg(arg: string): (r: (string, string))
    ensures '=' !in arg ==> r == (arg, "1")
    ensures '=' in arg ==> '=' !in r.0 && arg == r.0 + "=" + r.1
  {
    match FindEq(arg, 0)
    case None => (arg, "1")
    case Some(p) => (arg[..p], arg[p + 1..])
  }

  /// The key/value split is the only one whose key has no '=': joining the
  /// parts back with '=' gives the argument.
  lemma SplitArgUnique(arg: string, key: string, val: string)
    requires '=' !in key && arg == key + "=" + val
    ensures SplitArg(arg) == (key, val)
  {
    var r := SplitArg(arg);
    assert arg[|key|] == '=';
    assert '=' in arg;
    assert |r.0| == |key|;
    assert r.0 == arg[..|r.0|] == key;
    assert r.1 == arg[|key| + 1..] == val;
  }

  /// HandleArg on settings: a known key sets its field (OutFile verbatim,
  /// the others through boolVal); an unknown key changes nothing.
  function Apply(s: Settings, key: string, val: string): (r: Settings)
    ensures KnownKey(key) ==> Get(r, key) == Some(if key == "OutFile" then Text(val) else Flag(BoolVal(val)))
    ensures forall k :: k != key ==> Get(r, k) == Get(s, k)
    ensures !KnownKey(key) ==> r == s
  {
    if key == "Enabled" then s.(enabled := BoolVal(val))
    else if key == "OutFile" then s.(outFile := val)
    else if key == "Counts" then s.(counts := BoolVal(val))
    else if key == "CountsPerKind" then s.(countsPerKind := BoolVal(val))
    else if key == "Includes" then s.(includes := BoolVal(val))
    else if key == "RawTokens" then s.(rawTokens := BoolVal(val))
    else s
  }

  /// Parse on settings: the arguments applied left to right.
  function ApplyAll(s: Settings, args: seq<string>): Settings
  {
    if args == [] then s
    else
      var kv := SplitArg(args[|args| - 1]);
      Apply(ApplyAll(s, args[..|args| - 1]), kv.0, kv.1)
  }

  /// An option no argument names keeps its value.
  lemma {:induction false} Untouched(s: Settings, args: seq<string>, key: string)
    requires forall m :: 0 <= m < |args| ==> SplitArg(args[m]).0 != key
    ensures Get(ApplyAll(s, args), key) == Get(s, key)
  {
    if args != [] {
      Untouched(s, args[..|args| - 1], key);
    }
  }

  /// The last argument naming a known key decides its value.
  lemma {:induction false} LastAssignmentWins(s: Settings, args: seq<string>, k: nat, key: string)
    requires k < |args| && KnownKey(key) && SplitArg(args[k]).0 == key
    requires forall m :: k < m < |args| ==> SplitArg(args[m]).0 != key
    ensures var val := SplitArg(args[k]).1;
      Get(ApplyAll(s, args), key) == Some(if key == "OutFile" then Text(val) else Flag(BoolVal(val)))
  {
    if k < |args| - 1 {
      LastAssignmentWins(s, args[..|args| - 1], k, key);
    }
  }

  /// Arguments with unknown keys change nothing.
  lemma {:induction false} UnknownIgnored(s: Settings, args: seq<string>)
    requires forall m :: 0 <= m < |args| ==> !KnownKey(SplitArg(args[m]).0)
    ensures ApplyAll(s, args) == s
  {
    if args != [] {
      UnknownIgnored(s, args[..|args| - 1]);
    }
  }

  /// The plugin's options, updated in place by Parse.
  class Options {
    var enabled: bool
    var outFile: string
    var counts: bool
    var countsPerKind: bool
    var includes: bool
    var rawTokens: bool

    function Values(): Settings
      reads this
    {
      Settings(enabled, outFile, counts, countsPerKind, includes, rawTokens)
    }

    constructor ()
      ensures Values() == Defaults
    {
      enabled, outFile, counts, countsPerKind, includes, rawTokens := true, "", false, false, false, false;
    }

    /// HandleArg: sets the field `name` names; `warned` reports the
    /// "ignoring invalid argument" diagnostic for any other name.
    method HandleArg(name: string, val: string) returns (warned: bool)
      modifies this
      ensures Values() == Apply(old(Values()), name, val)
      ensures warned <==> !KnownKey(name)
    {
      warned := false;
      if name == "Enabled" {
        enabled := BoolVal(val);
      } else if name == "OutFile" {
        outFile := val;
      } else if name == "Counts" {
        counts := BoolVal(val);
      } else if name == "CountsPerKind" {
        countsPerKind := BoolVal(val);
      } else if name == "Includes" {
        includes := BoolVal(val);
      } else if name == "RawTokens" {
        rawTokens := BoolVal(val);
      } else {
        warned := true;
      }
    }

    /// Parse: every argument, split at its first '=', handled in order.
    method Parse(args: seq<string>)
      modifies this
      ensures Values() == ApplyAll(old(Values()), args)
    {
      var i := 0;
      while i < |args|
        invariant 0 <= i <= |args|
        invariant Values() == ApplyAll(old(Values()), args[..i])
      {
        var eq := FindEq(args[i], 0);
        var key, val;
        if eq.None? {
          key, val := args[i], "1";
        } else {
          key, val := args[i][..eq.value], args[i][eq.value + 1..];
        }
        assert (key, val) == SplitArg(args[i]);
        var _ := HandleArg(key, val);
        assert args[..i + 1][..i] == args[..i];
        i := i + 1;
      }
      assert args[..i] == args;
    }
  }
}
