// llvm-memaccess's JSON string output (dumpJSONEscaped / dumpJSONString):
// a backslash goes before every backslash and double quote, nothing else is
// escaped.
module JsonEscape {
  import opened Util

  predicate Special(c: char)
  {
    c == '\\' || c == '"'
  }

  /// The escaped text, one character at a time.
  function Escape(s: string): string
  {
    if s == [] then []
    else (if Special(s[0]) then ['\\', s[0]] else [s[0]]) + Escape(s[1..])
  }

  function CountSpecial(s: string): nat
  {
    if s == [] then 0 else (if Special(s[0]) then 1 else 0) + CountSpecial(s[1..])
  }

  /// Drops each escaping backslash: a backslash stands for the character after it.
  function Unescape(t: string): string
    decreases |t|
  {
    if t == [] then []
    else if t[0] == '\\' && |t| >= 2 then [t[1]] + Unescape(t[2..])
    else [t[0]] + Unescape(t[1..])
  }

  /// The output is one character longer per backslash or quote of the input.
  lemma {:induction false} EscapeLength(s: string)
    ensures |Escape(s)| == |s| + CountSpecial(s)
  {
    if s != [] {
      EscapeLength(s[1..]);
    }
  }

  /// Dropping the escaping backslashes recovers the input.
  lemma {:induction false} EscapeRoundTrip(s: string)
    ensures Unescape(Escape(s)) == s
  {
    if s != [] {
      EscapeRoundTrip(s[1..]);
      var head := if Special(s[0]) then ['\\', s[0]] else [s[0]];
      var e := head + Escape(s[1..]);
      if Special(s[0]) {
        assert e[0] == '\\' && e[1] == s[0] && e[2..] == Escape(s[1..]);
      } else {
        assert e[0] == s[0] && e[1..] == Escape(s[1..]);
      }
      assert s == [s[0]] + s[1..];
    }
  }

  /// Every quote of the output comes right after a backslash.
  lemma {:induction false} QuotesEscaped(s: string, k: nat)
    requires k < |Escape(s)| && Escape(s)[k] == '"'
    ensures k > 0 && Escape(s)[k - 1] == '\\'
  {
    var head := if Special(s[0]) then ['\\', s[0]] else [s[0]];
    if k >= |head| {
      QuotesEscaped(s[1..], k - |head|);
    }
  }

  lemma {:induction false} EscapeAppend(a: string, b: string)
    ensures Escape(a + b) == Escape(a) + Escape(b)
  {
    if a != [] {
      assert (a + b)[1..] == a[1..] + b;
      EscapeAppend(a[1..], b);
    } else {
      assert a + b == b;
    }
  }

  lemma {:induction false} EscapePlain(s: string)
    requires forall k :: 0 <= k < |s| ==> !Special(s[k])
    ensures Escape(s) == s
  {
    if s != [] {
      EscapePlain(s[1..]);
    }
  }

  /// StringRef::find: the first position at or after `from` holding `c`.
  function Find(s: string, c: char, from: nat): (r: Option<nat>)
    requires from <= |s|
    ensures r.None? ==> forall k :: from <= k < |s| ==> s[k] != c
    ensures r.Some? ==> from <= r.value < |s| && s[r.value] == c && forall k :: from <= k < r.value ==> s[k] != c
    decreases |s| - from
  {
    if from == |s| then None
    else if s[from] == c then Some(from)
    else Find(s, c, from + 1)
  }

  /// The cursor loop of dumpJSONEscaped: copy up to the next backslash or
  /// quote, emit it behind a backslash, and go on after it.
  method DumpJSONEscaped(s: string) returns (out: string)
    ensures out == Escape(s)
  {
    var i := 0;
    out := [];
    while true
      invariant 0 <= i <= |s| && out + Escape(s[i..]) == Escape(s)
      decreases |s| - i
    {
      var nextBackslash := Find(s, '\\', i);
      var nextQuote := Find(s, '"', i);
      if nextBackslash.None? && nextQuote.None? {
        EscapeTail(s, i, out);
        out := out + s[i..];
        return;
      }
      var next: nat;
      if nextQuote.None? || (nextBackslash.Some? && nextBackslash.value < nextQuote.value) {
        next := nextBackslash.value;
      } else {
        next := nextQuote.value;
      }
      assert Special(s[next]) && forall k :: i <= k < next ==> !Special(s[k]);
      EscapeStep(s, i, next, out);
      out := out + s[i..next] + ['\\', s[next]];
      i := next + 1;
    }
  }

  /// The last stretch holds no backslash or quote and is copied as it is.
  lemma EscapeTail(s: string, i: nat, out: string)
    requires i <= |s| && out + Escape(s[i..]) == Escape(s)
    requires forall k :: i <= k < |s| ==> !Special(s[k])
    ensures out + s[i..] == Escape(s)
  {
    assert forall k :: 0 <= k < |s[i..]| ==> s[i..][k] == s[i + k];
    EscapePlain(s[i..]);
  }

  /// One round of the cursor loop keeps the loop invariant.
  lemma EscapeStep(s: string, i: nat, next: nat, out: string)
    requires i <= next < |s| && Special(s[next])
    requires forall k :: i <= k < next ==> !Special(s[k])
    requires out + Escape(s[i..]) == Escape(s)
    ensures (out + s[i..next] + ['\\', s[next]]) + Escape(s[next + 1..]) == Escape(s)
  {
    SkipPlain(s, i, next);
    MovePrefix(out, Escape(s[i..]), s[i..next] + ['\\', s[next]], Escape(s[next + 1..]), Escape(s));
  }

  lemma MovePrefix(out: string, mid: string, a: string, rest: string, whole: string)
    requires out + mid == whole && mid == a + rest
    ensures out + a + rest == whole
  {
  }

  /// Splitting the rest of the input at the next special character.
  lemma {:induction false} SkipPlain(s: string, i: nat, next: nat)
    requires i <= next < |s| && Special(s[next])
    requires forall k :: i <= k < next ==> !Special(s[k])
    ensures Escape(s[i..]) == s[i..next] + ['\\', s[next]] + Escape(s[next + 1..])
  {
    assert s[i..] == s[i..next] + s[next..];
    EscapeAppend(s[i..next], s[next..]);
    EscapePlain(s[i..next]);
    assert s[next..][1..] == s[next + 1..];
  }

  /// dumpJSONString: the escaped text between double quotes.
  method DumpJSONString(s: string) returns (out: string)
    ensures out == ['"'] + Escape(s) + ['"']
    ensures |out| == |s| + CountSpecial(s) + 2
  {
    var body := DumpJSONEscaped(s);
    out := ['"'] + body + ['"'];
    EscapeLength(s);
  }
}
