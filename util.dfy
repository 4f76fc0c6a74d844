// Helpers shared by every module: optional values, error results, sums over
// finite sets and unsigned 64-bit arithmetic.
module Util {

  datatype Option<T> = None | Some(value: T)

  datatype Result<T, E> = Ok(value: T) | Err(error: E)
  {
    predicate IsOk() { this.Ok? }
  }

  /// 2^64: C++ `uint64_t` arithmetic is taken modulo this value.
  const U64_MOD: int := 0x1_0000_0000_0000_0000

  /// Reducing the running total modulo 2^64 before each addition gives the
  /// same result as reducing once at the end.
  lemma ModAddLeft(a: int, b: int)
    ensures ((a % U64_MOD) + b) % U64_MOD == (a + b) % U64_MOD
  {
    var q := a / U64_MOD;
    assert a == q * U64_MOD + a % U64_MOD;
    ShiftMod(a % U64_MOD + b, q);
  }

  lemma {:induction false} ShiftMod(x: int, q: int)
    ensures (x + q * U64_MOD) % U64_MOD == x % U64_MOD
    decreases if q >= 0 then q else -q
  {
    if q > 0 {
      ShiftMod(x, q - 1);
      assert x + q * U64_MOD == (x + (q - 1) * U64_MOD) + U64_MOD;
    } else if q < 0 {
      ShiftMod(x, q + 1);
      assert x + q * U64_MOD == (x + (q + 1) * U64_MOD) - U64_MOD;
    }
  }

  function Max(a: int, b: int): int { if a >= b then a else b }

  function Min(a: int, b: int): int { if a <= b then a else b }

  /// Sum of `f` over a finite set, in no particular order.
  ghost function SetSum<K>(keys: set<K>, f: K -> int): int
    decreases keys
  {
    if keys == {} then 0 else
    var k :| k in keys;
    f(k) + SetSum(keys - {k}, f)
  }

  /// The element chosen by SetSum does not matter: any element can be taken out first.
  lemma {:induction false} SetSumRemove<K>(keys: set<K>, k: K, f: K -> int)
    requires k in keys
    ensures SetSum(keys, f) == f(k) + SetSum(keys - {k}, f)
    decreases keys
  {
    var k' :| k' in keys && SetSum(keys, f) == f(k') + SetSum(keys - {k'}, f);
    if k' != k {
      SetSumRemove(keys - {k'}, k, f);
      SetSumRemove(keys - {k}, k', f);
      assert keys - {k'} - {k} == keys - {k} - {k'};
    }
  }

  lemma {:induction false} SetSumAdd<K>(keys: set<K>, k: K, f: K -> int)
    requires k !in keys
    ensures SetSum(keys + {k}, f) == SetSum(keys, f) + f(k)
  {
    SetSumRemove(keys + {k}, k, f);
    assert keys + {k} - {k} == keys;
  }

  /// Two functions that agree on the keys have the same sum.
  lemma {:induction false} SetSumCongruent<K>(keys: set<K>, f: K -> int, g: K -> int)
    requires forall k :: k in keys ==> f(k) == g(k)
    ensures SetSum(keys, f) == SetSum(keys, g)
    decreases keys
  {
    if keys != {} {
      var k :| k in keys;
      SetSumRemove(keys, k, f);
      SetSumRemove(keys, k, g);
      SetSumCongruent(keys - {k}, f, g);
    }
  }

  /// A pointwise smaller function has a smaller sum.
  lemma {:induction false} SetSumMonotone<K>(keys: set<K>, f: K -> int, g: K -> int)
    requires forall k :: k in keys ==> f(k) <= g(k)
    ensures SetSum(keys, f) <= SetSum(keys, g)
    decreases keys
  {
    if keys != {} {
      var k :| k in keys;
      SetSumRemove(keys, k, f);
      SetSumRemove(keys, k, g);
      SetSumMonotone(keys - {k}, f, g);
    }
  }

  lemma {:induction false} SetSumNonNegative<K>(keys: set<K>, f: K -> int)
    requires forall k :: k in keys ==> f(k) >= 0
    ensures SetSum(keys, f) >= 0
    decreases keys
  {
    if keys != {} {
      var k :| k in keys;
      SetSumRemove(keys, k, f);
      SetSumNonNegative(keys - {k}, f);
    }
  }

  /// `s` starts with `lit`.
  predicate StartsWith(s: string, lit: string)
  {
    |lit| <= |s| && s[..|lit|] == lit
  }

  /// `lit` occurs in `s` at position `i`.
  predicate OccursAt(s: string, lit: string, i: int)
  {
    0 <= i && i + |lit| <= |s| && s[i..i + |lit|] == lit
  }

  /// `lit` occurs in `s` at some position.
  predicate Contains(s: string, lit: string)
  {
    exists i :: 0 <= i <= |s| && OccursAt(s, lit, i)
  }

  /// Lexicographic order on strings by character code, as `std::string::compare` does.
  predicate StrLess(a: string, b: string)
  {
    if |a| == 0 then |b| > 0
    else if |b| == 0 then false
    else if a[0] != b[0] then a[0] < b[0]
    else StrLess(a[1..], b[1..])
  }

  lemma {:induction false} StrLessIrreflexive(a: string)
    ensures !StrLess(a, a)
  {
    if |a| > 0 { StrLessIrreflexive(a[1..]); }
  }

  lemma {:induction false} StrLessTransitive(a: string, b: string, c: string)
    requires StrLess(a, b) && StrLess(b, c)
    ensures StrLess(a, c)
  {
    if |a| > 0 && |b| > 0 && |c| > 0 && a[0] == b[0] && b[0] == c[0] {
      StrLessTransitive(a[1..], b[1..], c[1..]);
    }
  }

  lemma {:induction false} StrLessTotal(a: string, b: string)
    requires a != b
    ensures StrLess(a, b) || StrLess(b, a)
  {
    if |a| > 0 && |b| > 0 && a[0] == b[0] {
      assert a == [a[0]] + a[1..] && b == [b[0]] + b[1..];
      StrLessTotal(a[1..], b[1..]);
    }
  }

  lemma {:induction false} StrLessAsymmetric(a: string, b: string)
    requires StrLess(a, b)
    ensures !StrLess(b, a)
  {
    if |a| > 0 && |b| > 0 && a[0] == b[0] {
      StrLessAsymmetric(a[1..], b[1..]);
    }
  }
}
