/** 32-bit sequence-number arithmetic (RFC 793 section 3.3). A wrapped number is the
    residue of an unbounded one; `& 0xffffffff` is the Euclidean remainder modulo 2^32. */
module SeqArith {
  import opened Bytes

  const M: int := 0x1_0000_0000
  const HALF: int := 0x8000_0000

  function Wrap(a: int): u32 { a % M }

  function SeqAdd(a: int, b: int): u32 { Wrap(a + b) }

  predicate SeqLt(a: u32, b: u32) { Wrap(a - b) >= HALF }

  predicate SeqLeq(a: u32, b: u32) { a == b || SeqLt(a, b) }

  predicate SeqGeqOrEq(a: u32, b: u32) { a == b || !SeqLt(a, b) }

  function SeqDiff(a: u32, b: u32): int {
    var d := Wrap(a - b);
    if d >= HALF then d - M else d
  }

  /** On unbounded numbers less than half the space apart the wrapped comparisons decide
      the true order, and the wrapped distance is the true distance. */
  lemma ComparisonsAgree(A: int, B: int)
    requires -HALF <= A - B < HALF
    ensures SeqLt(Wrap(A), Wrap(B)) <==> A < B
    ensures SeqLeq(Wrap(A), Wrap(B)) <==> A <= B
    ensures SeqGeqOrEq(Wrap(A), Wrap(B)) <==> A >= B
    ensures SeqDiff(Wrap(A), Wrap(B)) == A - B
  {
    WrapDifference(A, B);
  }

  /** ... and no farther: the comparison is exact precisely on that window. */
  lemma LessThanExactWindow(A: int, B: int)
    requires -M < A - B < M
    ensures (SeqLt(Wrap(A), Wrap(B)) <==> A < B) <==> -HALF <= A - B < HALF
  {
    WrapDifference(A, B);
  }

  lemma WrapDifference(A: int, B: int)
    ensures Wrap(Wrap(A) - Wrap(B)) == Wrap(A - B)
  {
    var q := A / M - B / M;
    assert A - B == Wrap(A) - Wrap(B) + M * q;
    WrapMultiple(Wrap(A) - Wrap(B), q);
  }

  lemma WrapMultiple(a: int, q: int)
    ensures Wrap(a + M * q) == Wrap(a)
  {
    var r := a + M * q;
    assert r == M * (a / M + q) + a % M;
  }

  /** Adding commutes with wrapping, so a wrapped counter tracks its unbounded shadow. */
  lemma WrapAdd(A: int, n: int)
    ensures SeqAdd(Wrap(A), n) == Wrap(A + n)
  {
    WrapMultiple(Wrap(A) + n, A / M);
    assert A + n == Wrap(A) + n + M * (A / M);
  }

  /** Distance and addition are inverse for every pair of 32-bit numbers. */
  lemma DiffThenAdd(a: u32, b: u32)
    ensures SeqAdd(b, SeqDiff(a, b)) == a
    ensures -HALF <= SeqDiff(a, b) < HALF
  {
    var d := Wrap(a - b);
    if a >= b { assert d == a - b; } else { assert d == a - b + M; }
  }

  /** The order is antisymmetric except between numbers exactly half the space apart,
      where each counts as less than the other. */
  lemma BothLessExactlyAtHalf(a: u32, b: u32)
    ensures (SeqLt(a, b) && SeqLt(b, a)) <==> Wrap(a - b) == HALF
  {
    if a >= b { assert Wrap(a - b) == a - b; } else { assert Wrap(a - b) == a - b + M; }
  }

  /** Unbounded numbers less than 2^32 apart are equal as soon as their residues are. */
  lemma WrapInjective(A: int, B: int)
    requires Wrap(A) == Wrap(B) && -M < A - B < M
    ensures A == B
  {
  }
}
