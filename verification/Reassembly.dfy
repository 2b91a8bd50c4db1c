/** The receive rule both TCP engines share: take a payload exactly when it starts at the
    expected sequence number. Byte streams are unbounded, sequence numbers wrap. */
module Reassembly {
  import opened Bytes
  import opened SeqArith

  /** The payload is the part of stream `s` that starts at true offset `o`, numbered from
      the initial sequence number `isn`. */
  ghost predicate Carries(seqNo: u32, payload: bytes, isn: int, s: bytes, o: nat) {
    o + |payload| <= |s| && payload == s[o..o + |payload|] && seqNo == Wrap(isn + 1 + o)
  }

  /** A segment of stream `s` that arrives when `accepted` bytes have been taken, its true
      offset less than 2^32 away: fresh, duplicated, reordered or stale. */
  ghost predicate Genuine(seqNo: u32, payload: bytes, isn: int, s: bytes, accepted: nat) {
    |payload| > 0 ==>
      exists o: nat :: Carries(seqNo, payload, isn, s, o) && -M < o - accepted < M
  }

  predicate PrefixOf(a: bytes, s: bytes) { |a| <= |s| && a == s[..|a|] }

  /** Taking a genuine payload at the expected number extends the prefix. */
  lemma InOrderExtends(taken: bytes, s: bytes, isn: int, seqNo: u32, payload: bytes)
    requires PrefixOf(taken, s) && |payload| > 0
    requires Genuine(seqNo, payload, isn, s, |taken|)
    requires seqNo == Wrap(isn + 1 + |taken|)
    ensures PrefixOf(taken + payload, s)
  {
    var o: nat :| Carries(seqNo, payload, isn, s, o) && -M < o - |taken| < M;
    WrapInjective(isn + 1 + o, isn + 1 + |taken|);
    assert s[..o + |payload|] == s[..o] + s[o..o + |payload|];
  }

  datatype Arrival = Arrival(seqNo: u32, payload: bytes)

  datatype Receiver = Receiver(next: u32, data: bytes)

  function Receive(r: Receiver, a: Arrival): Receiver {
    if |a.payload| > 0 && a.seqNo == r.next
    then Receiver(SeqAdd(r.next, |a.payload|), r.data + a.payload) else r
  }

  function ReceiveAll(r: Receiver, arrivals: seq<Arrival>): Receiver
    decreases |arrivals|
  {
    if |arrivals| == 0 then r else ReceiveAll(Receive(r, arrivals[0]), arrivals[1..])
  }

  ghost predicate AllGenuine(r: Receiver, arrivals: seq<Arrival>, isn: int, s: bytes)
    decreases |arrivals|
  {
    |arrivals| == 0
    || (Genuine(arrivals[0].seqNo, arrivals[0].payload, isn, s, |r.data|)
        && AllGenuine(Receive(r, arrivals[0]), arrivals[1..], isn, s))
  }

  lemma ReceiveKeepsCount(r: Receiver, a: Arrival, isn: int)
    requires r.next == Wrap(isn + 1 + |r.data|)
    ensures Receive(r, a).next == Wrap(isn + 1 + |Receive(r, a).data|)
  {
    WrapAdd(isn + 1 + |r.data|, |a.payload|);
  }

  /** A prefix of `s`, expecting the byte behind it. */
  predicate HoldsPrefix(r: Receiver, isn: int, s: bytes) {
    PrefixOf(r.data, s) && r.next == Wrap(isn + 1 + |r.data|)
  }

  /** Whatever is lost, duplicated, reordered or stale, the receiver holds a prefix of the
      sender's stream and expects the byte after it. */
  lemma {:induction false} ReceiverHoldsPrefix(r: Receiver, arrivals: seq<Arrival>, isn: int, s: bytes)
    requires HoldsPrefix(r, isn, s) && AllGenuine(r, arrivals, isn, s)
    ensures HoldsPrefix(ReceiveAll(r, arrivals), isn, s)
    decreases |arrivals|
  {
    if |arrivals| > 0 {
      var a := arrivals[0];
      if |a.payload| > 0 && a.seqNo == r.next {
        InOrderExtends(r.data, s, isn, a.seqNo, a.payload);
      }
      ReceiveKeepsCount(r, a, isn);
      ReceiverHoldsPrefix(Receive(r, a), arrivals[1..], isn, s);
    }
  }

  lemma {:induction false} ReceiveAppend(r: Receiver, a: seq<Arrival>, b: seq<Arrival>)
    ensures ReceiveAll(r, a + b) == ReceiveAll(ReceiveAll(r, a), b)
    decreases |a|
  {
    if |a| == 0 {
      assert a + b == b;
    } else {
      assert (a + b)[1..] == a[1..] + b;
      ReceiveAppend(Receive(r, a[0]), a[1..], b);
    }
  }

  // ---- Completion ----

  predicate Increasing(cuts: seq<nat>) { forall i, j :: 0 <= i < j < |cuts| ==> cuts[i] < cuts[j] }

  /** The sender cuts `s` at these places, from the first of them to its end. */
  predicate CutsOf(cuts: seq<nat>, s: bytes) { |cuts| > 0 && Increasing(cuts) && cuts[|cuts| - 1] == |s| }

  /** The arrival is the piece between cuts `j` and `j + 1`. */
  predicate IsPiece(a: Arrival, isn: int, s: bytes, cuts: seq<nat>, j: nat) {
    && j + 1 < |cuts| && cuts[j] < cuts[j + 1] <= |s|
    && a == Arrival(Wrap(isn + 1 + cuts[j]), s[cuts[j]..cuts[j + 1]])
  }

  ghost predicate PieceNear(a: Arrival, isn: int, s: bytes, cuts: seq<nat>, accepted: nat) {
    exists j: nat :: IsPiece(a, isn, s, cuts, j) && -M < cuts[j] - accepted < M
  }

  ghost predicate StaleNear(a: Arrival, isn: int, s: bytes, start: nat, accepted: nat) {
    exists o: nat :: Carries(a.seqNo, a.payload, isn, s, o) && o < start && accepted - o < M
  }

  /** A piece, or something that starts before the first cut, less than 2^32 away from the
      bytes taken so far. */
  ghost predicate Known(a: Arrival, isn: int, s: bytes, cuts: seq<nat>, accepted: nat)
    requires CutsOf(cuts, s)
  {
    |a.payload| > 0 ==> PieceNear(a, isn, s, cuts, accepted) || StaleNear(a, isn, s, cuts[0], accepted)
  }

  ghost predicate AllKnown(r: Receiver, arrivals: seq<Arrival>, isn: int, s: bytes, cuts: seq<nat>)
    requires CutsOf(cuts, s)
    decreases |arrivals|
  {
    |arrivals| == 0
    || (Known(arrivals[0], isn, s, cuts, |r.data|) && AllKnown(Receive(r, arrivals[0]), arrivals[1..], isn, s, cuts))
  }

  /** Among the arrivals, in this order, are the pieces from cut `j` on. */
  predicate PiecesArrive(arrivals: seq<Arrival>, isn: int, s: bytes, cuts: seq<nat>, j: nat)
    decreases |arrivals|
  {
    j + 1 >= |cuts|
    || (|arrivals| > 0
        && PiecesArrive(arrivals[1..], isn, s, cuts, if IsPiece(arrivals[0], isn, s, cuts, j) then j + 1 else j))
  }

  lemma CutsDistinct(cuts: seq<nat>, j: nat, k: nat)
    requires Increasing(cuts) && j < |cuts| && k < |cuts| && cuts[j] == cuts[k]
    ensures j == k
  {
  }

  lemma StaleElsewhere(a: Arrival, isn: int, s: bytes, start: nat, accepted: nat)
    requires StaleNear(a, isn, s, start, accepted) && start <= accepted
    ensures a.seqNo != Wrap(isn + 1 + accepted)
  {
    var o: nat :| Carries(a.seqNo, a.payload, isn, s, o) && o < start && accepted - o < M;
    if a.seqNo == Wrap(isn + 1 + accepted) { SameOffset(isn, o, accepted); }
  }

  lemma SameOffset(isn: int, x: nat, y: nat)
    requires Wrap(isn + 1 + x) == Wrap(isn + 1 + y) && -M < x - y < M
    ensures x == y
  {
    WrapInjective(isn + 1 + x, isn + 1 + y);
  }

  lemma SameCut(a: Arrival, isn: int, s: bytes, cuts: seq<nat>, j: nat, k: nat)
    requires Increasing(cuts) && IsPiece(a, isn, s, cuts, j) && k < |cuts|
    requires -M < cuts[j] - cuts[k] < M && a.seqNo == Wrap(isn + 1 + cuts[k])
    ensures j == k
  {
    SameOffset(isn, cuts[j], cuts[k]);
    CutsDistinct(cuts, j, k);
  }

  lemma PieceAtCut(a: Arrival, isn: int, s: bytes, cuts: seq<nat>, k: nat)
    requires Increasing(cuts) && k < |cuts| && PieceNear(a, isn, s, cuts, cuts[k])
    requires a.seqNo == Wrap(isn + 1 + cuts[k])
    ensures IsPiece(a, isn, s, cuts, k)
  {
    var j: nat :| IsPiece(a, isn, s, cuts, j) && -M < cuts[j] - cuts[k] < M;
    SameCut(a, isn, s, cuts, j, k);
  }

  /** What is taken at cut `k` is the piece that starts there. */
  lemma TakenIsPiece(a: Arrival, isn: int, s: bytes, cuts: seq<nat>, k: nat)
    requires CutsOf(cuts, s) && k < |cuts| && Known(a, isn, s, cuts, cuts[k])
    requires |a.payload| > 0 && a.seqNo == Wrap(isn + 1 + cuts[k])
    ensures IsPiece(a, isn, s, cuts, k)
  {
    assert cuts[0] <= cuts[k];
    if StaleNear(a, isn, s, cuts[0], cuts[k]) { StaleElsewhere(a, isn, s, cuts[0], cuts[k]); }
    PieceAtCut(a, isn, s, cuts, k);
  }

  lemma PieceTaken(r: Receiver, a: Arrival, isn: int, s: bytes, cuts: seq<nat>, k: nat)
    requires IsPiece(a, isn, s, cuts, k) && HoldsPrefix(r, isn, s) && |r.data| == cuts[k]
    ensures HoldsPrefix(Receive(r, a), isn, s) && |Receive(r, a).data| == cuts[k + 1]
  {
    ReceiveKeepsCount(r, a, isn);
  }

  /** If the pieces arrive in order, among whatever repetitions of them and stale segments,
      the receiver ends with the whole stream. */
  lemma {:induction false} ReceiverCompletes(r: Receiver, arrivals: seq<Arrival>, isn: int, s: bytes, cuts: seq<nat>,
                                             j: nat, k: nat)
    requires CutsOf(cuts, s) && j <= k < |cuts| && HoldsPrefix(r, isn, s) && |r.data| == cuts[k]
    requires AllKnown(r, arrivals, isn, s, cuts) && PiecesArrive(arrivals, isn, s, cuts, j)
    ensures ReceiveAll(r, arrivals) == Receiver(Wrap(isn + 1 + |s|), s)
    decreases |arrivals|
  {
    if |arrivals| > 0 {
      var a := arrivals[0];
      var j1 := if j + 1 < |cuts| && IsPiece(a, isn, s, cuts, j) then j + 1 else j;
      if |a.payload| > 0 && a.seqNo == r.next {
        TakenIsPiece(a, isn, s, cuts, k);
        PieceTaken(r, a, isn, s, cuts, k);
        ReceiverCompletes(Receive(r, a), arrivals[1..], isn, s, cuts, j1, k + 1);
      } else {
        ReceiverCompletes(r, arrivals[1..], isn, s, cuts, j1, k);
      }
    }
  }

  lemma PiecesComplete(r: Receiver, arrivals: seq<Arrival>, isn: int, s: bytes, cuts: seq<nat>)
    requires CutsOf(cuts, s) && HoldsPrefix(r, isn, s) && |r.data| == cuts[0]
    requires AllKnown(r, arrivals, isn, s, cuts) && PiecesArrive(arrivals, isn, s, cuts, 0)
    ensures ReceiveAll(r, arrivals).data == s
  {
    ReceiverCompletes(r, arrivals, isn, s, cuts, 0, 0);
  }
}
