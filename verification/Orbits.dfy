/** Repeating a partial function on natural numbers: it stops, or it cycles. */
module Orbits {
  import opened Bytes

  /** Where `n` applications of `f` lead from `x`, if all of them are defined. */
  function Orbit(f: nat -> Option<nat>, x: nat, n: nat): Option<nat>
    decreases n
  {
    if n == 0 then Some(x)
    else match f(x)
      case None => None
      case Some(y) => Orbit(f, y, n - 1)
  }

  lemma {:induction false} OrbitSplit(f: nat -> Option<nat>, x: nat, a: nat, b: nat)
    ensures Orbit(f, x, a + b) == if Orbit(f, x, a).Some? then Orbit(f, Orbit(f, x, a).value, b) else None
    decreases a
  {
    if a > 0 && f(x).Some? {
      OrbitSplit(f, f(x).value, a - 1, b);
    }
  }

  /** A point that leads back to itself leads on for ever. */
  lemma {:induction false} CycleNeverStops(f: nat -> Option<nat>, x: nat, d: nat, n: nat)
    requires d > 0 && Orbit(f, x, d) == Some(x)
    ensures Orbit(f, x, n).Some?
    decreases n
  {
    if n <= d {
      OrbitSplit(f, x, n, d - n);
    } else {
      OrbitSplit(f, x, d, n - d);
      CycleNeverStops(f, x, d, n - d);
    }
  }

  /** More numbers below `n` than `n` repeat one. */
  lemma {:induction false} Pigeonhole(s: seq<nat>, n: nat)
    requires |s| > n && forall i :: 0 <= i < |s| ==> s[i] < n
    ensures exists i, j :: 0 <= i < j < |s| && s[i] == s[j]
    decreases n
  {
    var first := s[0];
    if k :| 0 <= k < |s| && s[k] == n - 1 {
      if j :| 0 <= j < |s| && j != k && s[j] == n - 1 {
        var lo, hi := if j < k then j else k, if j < k then k else j;
        assert s[lo] == s[hi];
      } else {
        var t := s[..k] + s[k + 1..];
        assert forall i :: 0 <= i < |t| ==> t[i] == s[if i < k then i else i + 1];
        Pigeonhole(t, n - 1);
        var i, j :| 0 <= i < j < |t| && t[i] == t[j];
        assert s[if i < k then i else i + 1] == s[if j < k then j else j + 1];
      }
    } else {
      Pigeonhole(s, n - 1);
    }
  }

  lemma OrbitPrefix(f: nat -> Option<nat>, x: nat, k: nat, n: nat)
    requires Orbit(f, x, n).Some? && k <= n
    ensures Orbit(f, x, k).Some?
    ensures k < n ==> f(Orbit(f, x, k).value).Some?
  {
    OrbitSplit(f, x, k, n - k);
  }

  /** If `f` is undefined from `bound` on, an orbit longer than `bound` meets a value twice. */
  lemma LongOrbitRepeats(f: nat -> Option<nat>, bound: nat, x: nat) returns (i: nat, j: nat)
    requires forall y: nat :: f(y).Some? ==> y < bound
    requires Orbit(f, x, bound + 1).Some?
    ensures Repeats(f, x, i, j)
  {
    forall k | 0 <= k <= bound
      ensures Orbit(f, x, k).Some? && Orbit(f, x, k).value < bound
    {
      OrbitPrefix(f, x, k, bound + 1);
    }
    var s := seq(bound + 1, k requires 0 <= k < bound + 1 => Orbit(f, x, k).value);
    Pigeonhole(s, bound);
    i, j :| 0 <= i < j < |s| && s[i] == s[j];
  }

  /** Steps `i` and `j` reach the same value. */
  predicate Repeats(f: nat -> Option<nat>, x: nat, i: nat, j: nat) {
    i < j && Orbit(f, x, i).Some? && Orbit(f, x, j) == Orbit(f, x, i)
  }

  /** Such an orbit never stops. */
  lemma LongOrbitNeverStops(f: nat -> Option<nat>, bound: nat, x: nat, n: nat)
    requires forall y: nat :: f(y).Some? ==> y < bound
    requires Orbit(f, x, bound + 1).Some?
    ensures Orbit(f, x, n).Some?
  {
    var i, j := LongOrbitRepeats(f, bound, x);
    RepeatNeverStops(f, x, i, j, n);
  }

  lemma RepeatNeverStops(f: nat -> Option<nat>, x: nat, i: nat, j: nat, n: nat)
    requires i < j && Orbit(f, x, i).Some? && Orbit(f, x, j) == Orbit(f, x, i)
    ensures Orbit(f, x, n).Some?
  {
    OrbitSplit(f, x, i, j - i);
    if n <= i {
      OrbitPrefix(f, x, n, i);
    } else {
      CycleNeverStops(f, Orbit(f, x, i).value, j - i, n - i);
      OrbitSplit(f, x, i, n - i);
    }
  }
}
