/** The Internet checksum (RFC 1071). */
module Checksum {
  import opened Bytes

  /** Sum of the big-endian 16-bit words, an odd last byte taken as a high byte. */
  function WordSum(d: bytes): nat {
    if |d| == 0 then 0
    else if |d| == 1 then d[0] as int * 0x100
    else Unpack16(d, 0) + WordSum(d[2..])
  }

  /** The one's-complement 16-bit representative of a sum: 0 for 0, otherwise the
      number in 1..65535 congruent to it modulo 65535. */
  function Representative(n: nat): u16 {
    if n == 0 then 0 else 1 + (n - 1) % 0xffff
  }

  function InternetChecksum(d: bytes): u16 { 0xffff - Representative(WordSum(d)) }

  /** What an RFC 1071 receiver tests: the bytes, checksum included, sum to 0xffff. */
  predicate Verifies(d: bytes) { Representative(WordSum(d)) == 0xffff }

  lemma {:induction false} WordSumConcat(a: bytes, b: bytes)
    requires |a| % 2 == 0
    ensures WordSum(a + b) == WordSum(a) + WordSum(b)
  {
    if |a| == 0 {
      assert a + b == b;
    } else {
      assert (a + b)[2..] == a[2..] + b;
      WordSumConcat(a[2..], b);
    }
  }

  lemma {:induction false} WordSumPadding(d: bytes)
    requires |d| % 2 == 1
    ensures WordSum(d + [0]) == WordSum(d)
  {
    if |d| == 1 {
      assert (d + [0])[2..] == [];
    } else {
      assert (d + [0])[2..] == d[2..] + [0];
      WordSumPadding(d[2..]);
    }
  }

  /** Folding the carries back in keeps the representative and makes the sum smaller. */
  lemma FoldStep(s: nat)
    requires s >= 0x1_0000
    ensures 0 < s % 0x1_0000 + s / 0x1_0000 < s
    ensures Representative(s % 0x1_0000 + s / 0x1_0000) == Representative(s)
  {
    var q, f := s / 0x1_0000, s % 0x1_0000 + s / 0x1_0000;
    assert s - 1 == f - 1 + 0xffff * q;
    ModMultiple(f - 1, q);
  }

  lemma ModMultiple(a: int, q: int)
    ensures (a + 0xffff * q) % 0xffff == a % 0xffff
  {
    assert a + 0xffff * q == 0xffff * (a / 0xffff + q) + a % 0xffff;
  }

  /** A receiver accepts exactly the non-empty sums divisible by 65535. */
  lemma VerifiesIff(d: bytes)
    ensures Verifies(d) <==> WordSum(d) > 0 && WordSum(d) % 0xffff == 0
  {
    var n := WordSum(d);
    if n > 0 && n % 0xffff == 0 {
      MultipleRepresented(n / 0xffff);
    }
  }

  lemma WordSumStep(d: bytes, i: nat)
    requires i + 2 <= |d|
    ensures WordSum(d[i..]) == Unpack16(d, i) + WordSum(d[i + 2..])
  {
    assert d[i..][2..] == d[i + 2..];
  }

  /** `ones_complement_sum`: the word loop and the fold loop. */
  method OnesComplementSum(data: bytes) returns (s: nat)
    ensures s == Representative(WordSum(data))
  {
    var d := data;
    if |d| % 2 == 1 {
      WordSumPadding(d);
      d := d + [0];
    }
    s := 0;
    var i := 0;
    while i < |d|
      invariant 0 <= i <= |d| && i % 2 == 0
      invariant s + WordSum(d[i..]) == WordSum(data)
    {
      WordSumStep(d, i);
      s := s + (d[i] as int * 0x100 + d[i + 1] as int);
      i := i + 2;
    }
    assert d[i..] == [] && s == WordSum(data);
    while s / 0x1_0000 != 0
      invariant Representative(s) == Representative(WordSum(data))
      decreases s
    {
      FoldStep(s);
      s := s % 0x1_0000 + s / 0x1_0000;
    }
  }

  method ComputeInternetChecksum(data: bytes) returns (c: u16)
    ensures c == InternetChecksum(data)
  {
    var s := OnesComplementSum(data);
    c := 0xffff - s;
  }

  /** Storing a word over two zero bytes at an even offset adds it to the sum. */
  lemma {:induction false} StoredWordAdds(pre: bytes, w: u16, post: bytes)
    requires |pre| % 2 == 0
    ensures WordSum(pre + Pack16(w) + post) == WordSum(pre) + w + WordSum(post)
  {
    WordSumConcat(pre + Pack16(w), post);
    WordSumConcat(pre, Pack16(w));
    assert Pack16(w)[2..] == [];
  }

  /** Soundness for every packet: when the two bytes after the even-length prefix are
      zero and the checksum is stored there, a receiver's sum is 0xffff. The stored
      value may also be replaced by 0xffff when it is 0, as UDP does. */
  lemma {:induction false} FilledChecksumVerifies(pre: bytes, post: bytes, stored: u16)
    requires |pre| % 2 == 0
    requires var c := InternetChecksum(pre + [0, 0] + post);
             stored == c || (c == 0 && stored == 0xffff)
    ensures Verifies(pre + Pack16(stored) + post)
  {
    StoredWordAdds(pre, 0, post);
    StoredWordAdds(pre, stored, post);
    assert Pack16(0) == [0, 0];
    ComplementSums(WordSum(pre) + WordSum(post), stored);
  }

  lemma ComplementSums(n: nat, stored: u16)
    requires stored == 0xffff - Representative(n) || (Representative(n) == 0xffff && stored == 0xffff)
    ensures Representative(n + stored) == 0xffff
  {
    var k := if n == 0 then -1 else (n - 1) / 0xffff;
    assert n == 0xffff * k + Representative(n) || n == 0;
    var m := if stored == 0xffff - Representative(n) then k + 1 else k + 2;
    MultipleRepresented(if n == 0 then 1 else m);
  }

  lemma MultipleRepresented(m: nat)
    requires m >= 1
    ensures Representative(0xffff * m) == 0xffff
  {
    ModMultiple(0xfffe, m - 1);
  }

  lemma MultiplesDiffer(a: nat, b: nat)
    ensures a % 0xffff == 0 && b % 0xffff == 0 ==> (a - b) % 0xffff == 0
  {
    if a % 0xffff == 0 && b % 0xffff == 0 {
      assert a - b == 0 + 0xffff * (a / 0xffff - b / 0xffff);
      ModMultiple(0, a / 0xffff - b / 0xffff);
    }
  }

  /** Any change of the covered words that moves their sum by something other than a
      multiple of 65535 is noticed. */
  lemma CorruptionDetected(d: bytes, e: bytes)
    requires Verifies(d) && (WordSum(d) - WordSum(e)) % 0xffff != 0
    ensures !Verifies(e)
  {
    VerifiesIff(d);
    VerifiesIff(e);
    MultiplesDiffer(WordSum(d), WordSum(e));
  }
}
