/** Bytes, fixed-width unsigned integers, and the fragments of Python's `struct` and
    slicing that the packet codecs use. */
module Bytes {
  type byte = x: int | 0 <= x < 0x100
  type u16 = x: int | 0 <= x < 0x1_0000
  type u32 = x: int | 0 <= x < 0x1_0000_0000
  type bytes = seq<byte>

  type Mac = b: bytes | |b| == 6 witness [0, 0, 0, 0, 0, 0]
  type Ip4 = b: bytes | |b| == 4 witness [0, 0, 0, 0]

  datatype Option<+T> = None | Some(value: T)

  /** What a parser raises: `ValueError` for a malformed packet, `StructError` when
      `struct` is given too few bytes or an out-of-range value, `IndexError` when a
      byte beyond the end is read. */
  datatype Error = ValueError | StructError | IndexError

  datatype Result<+T> = Ok(value: T) | Err(error: Error)

  /** Python's `s[lo:hi]` for non-negative bounds: out-of-range bounds are clamped. */
  function Slice<T>(s: seq<T>, lo: nat, hi: nat): (r: seq<T>)
    ensures lo <= hi <= |s| ==> r == s[lo..hi]
    ensures |r| <= |s|
  {
    var h := if hi <= |s| then hi else |s|;
    if lo <= h then s[lo..h] else []
  }

  function Zeros(n: nat): (z: bytes)
    ensures |z| == n && forall i :: 0 <= i < n ==> z[i] == 0
  {
    seq(n, i => 0)
  }

  /** `struct.pack('!H', v)` and `struct.unpack('!H', b[i:i+2])`. */
  function Pack16(v: u16): (b: bytes)
    ensures |b| == 2 && Unpack16(b, 0) == v
  {
    [v / 0x100, v % 0x100]
  }

  function Unpack16(b: bytes, i: nat): u16
    requires i + 2 <= |b|
  {
    b[i] as int * 0x100 + b[i + 1] as int
  }

  /** `struct.pack('!I', v)` and `struct.unpack('!I', b[i:i+4])`. */
  function Pack32(v: u32): (b: bytes)
    ensures |b| == 4 && Unpack32(b, 0) == v
  {
    Pack16(v / 0x1_0000) + Pack16(v % 0x1_0000)
  }

  function Unpack32(b: bytes, i: nat): u32
    requires i + 4 <= |b|
  {
    Unpack16(b, i) * 0x1_0000 + Unpack16(b, i + 2)
  }

  /** Unpacking reads the same value wherever the packed bytes sit. */
  lemma UnpackWithin(pre: bytes, b: bytes, post: bytes)
    ensures forall i :: |pre| <= i && i + 2 <= |pre| + |b| ==>
      Unpack16(pre + b + post, i) == Unpack16(b, i - |pre|)
    ensures forall i :: |pre| <= i && i + 4 <= |pre| + |b| ==>
      Unpack32(pre + b + post, i) == Unpack32(b, i - |pre|)
  {
  }

  lemma Assoc<T>(a: seq<T>, b: seq<T>, c: seq<T>)
    ensures a + b + c == a + (b + c)
  {
  }

  lemma DropDrop<T>(o: seq<T>, i: nat, k: nat)
    requires i + k <= |o|
    ensures o[i..][k..] == o[i + k..]
  {
  }

  lemma SliceOfDrop<T>(o: seq<T>, i: nat, lo: nat, hi: nat)
    requires lo <= hi && i + hi <= |o|
    ensures o[i..][lo..hi] == o[i + lo..i + hi]
  {
  }

  /** Taking a known piece off the front of what is left at `i`. */
  lemma TakeFront<T>(o: seq<T>, i: nat, head: seq<T>, rest: seq<T>)
    requires i <= |o| && o[i..] == head + rest
    ensures i + |head| <= |o| && o[i..i + |head|] == head && o[i + |head|..] == rest
  {
    assert |o| - i == |head| + |rest|;
    assert o[i..i + |head|] == o[i..][..|head|];
    assert o[i + |head|..] == o[i..][|head|..];
  }

  /** Marks a proof that looks inside a predicate kept behind the mark. */
  predicate Inside(mark: nat) { true }
}
