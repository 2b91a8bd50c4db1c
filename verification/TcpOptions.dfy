/** TCP option lists (RFC 793 section 3.1). */
module TcpOptions {
  import opened Bytes
  import opened Packets
  import opened ConnSpec

  /** Dictionary keys and values of `parse_tcp_options`: two options are decoded, every
      other is kept raw under its kind. */
  datatype OptionKey = Mss | WindowScale | Kind(kind: byte)
  datatype OptionValue = Number(n: nat) | Raw(value: bytes)
  type Options = map<OptionKey, OptionValue>

  function EntryFor(kind: byte, value: bytes): OptionKey {
    if kind == 2 && |value| == 2 then Mss
    else if kind == 3 && |value| == 1 then WindowScale
    else Kind(kind)
  }

  function ValueOf(kind: byte, value: bytes): OptionValue {
    if kind == 2 && |value| == 2 then Number(Unpack16(value, 0))
    else if kind == 3 && |value| == 1 then Number(value[0])
    else Raw(value)
  }

  datatype RawOption = RawOption(kind: byte, value: bytes)

  /** What stands first: the end of the walk, a NOP, or an option. */
  datatype Item = End | Skip | Entry(option: RawOption)

  function FirstItem(o: bytes): Item {
    if |o| == 0 || o[0] == 0 then End
    else if o[0] == 1 then Skip
    else if 1 >= |o| || o[1] < 2 || o[1] as int > |o| then End
    else Entry(RawOption(o[0], o[2..o[1]]))
  }

  /** The options the walk meets. */
  function Walk(o: bytes): seq<RawOption> {
    match FirstItem(o)
    case End => []
    case Skip => Walk(o[1..])
    case Entry(option) => [option] + Walk(o[o[1]..])
  }

  /** Entering options into the dictionary in order. */
  function Enter(met: seq<RawOption>, found: Options): Options
    decreases |met|
  {
    if |met| == 0 then found
    else Enter(met[1..], found[EntryFor(met[0].kind, met[0].value) := ValueOf(met[0].kind, met[0].value)])
  }

  function ParsedOptions(o: bytes): Options { Enter(Walk(o), map[]) }

  method ParseTcpOptions(opts: bytes) returns (out: Options)
    ensures out == ParsedOptions(opts)
  {
    out := map[];
    var i := 0;
    while i < |opts|
      invariant 0 <= i <= |opts|
      invariant Enter(Walk(opts[i..]), out) == ParsedOptions(opts)
    {
      ghost var left := opts[i..];
      var kind := opts[i];
      if kind == 0 { break; }
      if kind == 1 {
        DropDrop(opts, i, 1);
        i := i + 1;
        continue;
      }
      if i + 1 >= |opts| { break; }
      var length := opts[i + 1];
      if length < 2 || i + length as int > |opts| { break; }
      var value := opts[i + 2..i + length as int];
      SliceOfDrop(opts, i, 2, length as int);
      DropDrop(opts, i, length as int);
      assert Walk(left)[1..] == Walk(left[length..]);
      if kind == 2 && length == 4 {
        out := out[Mss := Number(Unpack16(value, 0))];
      } else if kind == 3 && length == 3 {
        out := out[WindowScale := Number(value[0])];
      } else {
        out := out[Kind(kind) := Raw(value)];
      }
      i := i + length as int;
    }
  }

  // ---- Well-formed lists ----

  datatype AnyOption = Nop | Option_(kind: byte, value: bytes)

  /** An option that can be written: its kind is not 0 or 1 and its length fits a byte. */
  type TcpOption = o: AnyOption | o.Option_? ==> o.kind >= 2 && |o.value| <= 253 witness Nop

  function EncodeOne(option: TcpOption): bytes {
    match option
    case Nop => [1]
    case Option_(kind, value) => [kind, |value| + 2] + value
  }

  function Encode(options: seq<TcpOption>): bytes {
    if |options| == 0 then [] else EncodeOne(options[0]) + Encode(options[1..])
  }

  /** The options of a list that are not NOPs. */
  function Meaning(options: seq<TcpOption>): seq<RawOption> {
    if |options| == 0 then []
    else match options[0]
      case Nop => Meaning(options[1..])
      case Option_(kind, value) => [RawOption(kind, value)] + Meaning(options[1..])
  }

  /** Nothing behind the list, or an End of Option List and whatever follows it. */
  predicate Ends(tail: bytes) { |tail| == 0 || tail[0] == 0 }

  lemma WalkOne(option: TcpOption, rest: bytes)
    ensures Walk(EncodeOne(option) + rest)
         == (if option.Nop? then [] else [RawOption(option.kind, option.value)]) + Walk(rest)
  {
    var o := EncodeOne(option) + rest;
    assert o[|EncodeOne(option)|..] == rest;
    if option.Option_? {
      assert o[2..o[1]] == option.value;
    }
  }

  lemma {:induction false} WalkOfEncoding(options: seq<TcpOption>, tail: bytes)
    requires Ends(tail)
    ensures Walk(Encode(options) + tail) == Meaning(options)
  {
    if |options| == 0 {
      assert Encode(options) + tail == tail;
    } else {
      Assoc(EncodeOne(options[0]), Encode(options[1..]), tail);
      WalkOne(options[0], Encode(options[1..]) + tail);
      WalkOfEncoding(options[1..], tail);
    }
  }

  /** Parsing inverts the encoding of every well-formed list: its options are entered in
      order, a later one of a kind replacing an earlier one, with or without an end marker
      and anything behind it. */
  lemma ParseInvertsEncode(options: seq<TcpOption>, tail: bytes)
    requires Ends(tail)
    ensures ParsedOptions(Encode(options) + tail) == Enter(Meaning(options), map[])
  {
    WalkOfEncoding(options, tail);
  }

  lemma FillEnds(o: bytes) returns (fill: bytes)
    ensures PadOptions(o) == o + fill && Ends(fill)
  {
    fill := Zeros((4 - |o| % 4) % 4);
    assert |o| % 4 == 0 ==> o + fill == o;
  }

  /** What is left where the walk stops. */
  function Tail(o: bytes): (z: bytes)
    ensures FirstItem(z).End? && |z| <= |o|
  {
    match FirstItem(o)
    case End => o
    case Skip => Tail(o[1..])
    case Entry(_) => Tail(o[o[1]..])
  }

  /** Bytes behind a list are met as if they stood behind what the walk left. */
  lemma {:induction false} WalkBehind(o: bytes, fill: bytes)
    ensures Walk(o + fill) == Walk(o) + Walk(Tail(o) + fill)
  {
    match FirstItem(o)
    case End =>
    case Skip =>
      assert (o + fill)[1..] == o[1..] + fill;
      WalkBehind(o[1..], fill);
    case Entry(option) =>
      assert (o + fill)[o[1]..] == o[o[1]..] + fill && (o + fill)[2..o[1]] == o[2..o[1]];
      WalkBehind(o[o[1]..], fill);
      Assoc([option], Walk(o[o[1]..]), Walk(Tail(o) + fill));
  }

  /** The list ends inside an option, short of no more bytes than the zero fill of a printed
      segment adds. */
  predicate CutShort(o: bytes) {
    var z := Tail(o);
    |z| >= 2 && z[0] >= 2 && |z| < z[1] as int <= |z| + |PadOptions(o)| - |o|
  }

  /** That option, its missing bytes taken from the fill. */
  function Completed(o: bytes): RawOption
    requires CutShort(o)
  {
    var z := Tail(o);
    RawOption(z[0], z[2..] + Zeros(z[1] - |z|))
  }

  lemma WalkOfZeros(n: nat)
    ensures Walk(Zeros(n)) == []
  {
  }

  lemma CompletedFirst(z: bytes, n: nat)
    requires |z| >= 2 && z[0] >= 2 && |z| < z[1] as int <= |z| + n
    ensures Walk(z + Zeros(n)) == [RawOption(z[0], z[2..] + Zeros(z[1] - |z|))]
  {
    var w := z + Zeros(n);
    assert w[2..w[1]] == z[2..] + Zeros(z[1] - |z|);
    assert w[w[1]..] == Zeros(|w| - w[1]);
    WalkOfZeros(|w| - w[1]);
    assert Walk(w) == [RawOption(z[0], w[2..w[1]])] + [];
  }

  lemma NothingCompleted(z: bytes, n: nat)
    requires FirstItem(z).End? && !(|z| >= 2 && z[0] >= 2 && |z| < z[1] as int <= |z| + n)
    ensures Walk(z + Zeros(n)) == []
  {
    var w := z + Zeros(n);
    if |z| == 0 {
      assert w == Zeros(n);
      WalkOfZeros(n);
    } else {
      assert w[0] == z[0] && (|z| >= 2 ==> w[1] == z[1]) && (|z| == 1 && n > 0 ==> w[1] == 0);
      assert FirstItem(w).End?;
    }
  }

  lemma FillIs(o: bytes) returns (n: nat)
    ensures PadOptions(o) == o + Zeros(n)
  {
    n := |PadOptions(o)| - |o|;
    if n == 0 { assert o + Zeros(n) == o; }
  }

  /** For every byte string, well-formed or not: what the program reads back from the options
      it printed is what it read before, unless the list was cut short inside an option;
      then, and only then, one option more, completed from the zero fill. */
  lemma PaddingChangesIffCutShort(o: bytes)
    ensures Walk(PadOptions(o)) == Walk(o) + (if CutShort(o) then [Completed(o)] else [])
    ensures Walk(PadOptions(o)) == Walk(o) <==> !CutShort(o)
  {
    var n := FillIs(o);
    WalkBehind(o, Zeros(n));
    if CutShort(o) { CompletedFirst(Tail(o), n); } else { NothingCompleted(Tail(o), n); }
  }

  lemma WellFormedNotCutShort(options: seq<TcpOption>)
    ensures !CutShort(Encode(options))
  {
    var o := Encode(options);
    var fill := FillEnds(o);
    WalkOfEncoding(options, fill);
    assert o + [] == o;
    WalkOfEncoding(options, []);
    PaddingChangesIffCutShort(o);
  }

  /** In particular the zero fill does not change what a well-formed list means. */
  lemma PaddingTransparent(options: seq<TcpOption>)
    ensures ParsedOptions(PadOptions(Encode(options))) == ParsedOptions(Encode(options))
  {
    WellFormedNotCutShort(options);
    PaddingChangesIffCutShort(Encode(options));
  }

  /** One that is cut short: a segment size, of which the fill supplies the low byte. */
  lemma PaddingCompletesTruncatedOption()
    ensures CutShort([2, 4, 5]) && ParsedOptions([2, 4, 5]) == map[]
    ensures ParsedOptions(PadOptions([2, 4, 5])) == map[Mss := Number(0x0500)]
  {
    var p: bytes := PadOptions([2, 4, 5]);
    assert p == [2, 4, 5, 0];
    assert p[2..4] == [5, 0];
    assert Walk(p) == [RawOption(2, [5, 0])] by { assert p[4..] == []; }
    assert Walk(p)[1..] == [];
  }

  // ---- Segment size ----

  predicate MssInRange(found: Options) {
    Mss in found ==> found[Mss].Number? && found[Mss].n < 0x1_0000
  }

  /** Whatever the bytes, a decoded segment size is a 16-bit number. */
  lemma {:induction false} EnterMssInRange(met: seq<RawOption>, found: Options)
    requires MssInRange(found)
    ensures MssInRange(Enter(met, found))
    decreases |met|
  {
    if |met| > 0 {
      EnterMssInRange(met[1..], found[EntryFor(met[0].kind, met[0].value) := ValueOf(met[0].kind, met[0].value)]);
    }
  }

  /** The segment size a SYN's options negotiate: theirs, at most ours, ours by default. */
  function NegotiatedMss(options: bytes): (mss: u16)
    ensures mss <= 1460
  {
    var found := ParsedOptions(options);
    EnterMssInRange(Walk(options), map[]);
    if Mss in found && found[Mss].n <= TCP_MSS then found[Mss].n else TCP_MSS
  }

  /** Read by such a peer, the option the gateway sends stands for the size it put in. */
  lemma OwnOptionReadBack(mss: u16)
    requires mss <= TCP_MSS
    ensures NegotiatedMss(MssOption(mss)) == mss
  {
    var options := [Option_(2, Pack16(mss))];
    ParseInvertsEncode(options, []);
    assert options[1..] == [];
    assert EncodeOne(options[0]) == MssOption(mss);
    assert Encode(options) + [] == MssOption(mss);
    assert Meaning(options) == [RawOption(2, Pack16(mss))];
    assert Meaning(options)[1..] == [];
  }

  /** What an option stands under: a segment size is kind 2 with two bytes, a window scale kind
      3 with one; any other stands under its kind. */
  predicate StandsUnder(option: RawOption, key: OptionKey) {
    match key
    case Mss => option.kind == 2 && |option.value| == 2
    case WindowScale => option.kind == 3 && |option.value| == 1
    case Kind(kind) =>
      option.kind == kind && !(kind == 2 && |option.value| == 2) && !(kind == 3 && |option.value| == 1)
  }

  /** The last option met that stands under a key. */
  function LastUnder(met: seq<RawOption>, key: OptionKey): (last: Option<RawOption>)
    ensures last.Some? ==> StandsUnder(last.value, key)
    decreases |met|
  {
    if |met| == 0 then None
    else if StandsUnder(met[|met| - 1], key) then Some(met[|met| - 1])
    else LastUnder(met[..|met| - 1], key)
  }

  lemma {:induction false} EnterAppend(met: seq<RawOption>, last: RawOption, found: Options)
    ensures Enter(met + [last], found)
         == Enter(met, found)[EntryFor(last.kind, last.value) := ValueOf(last.kind, last.value)]
    decreases |met|
  {
    if |met| == 0 {
      assert (met + [last])[1..] == [];
    } else {
      assert (met + [last])[1..] == met[1..] + [last];
      EnterAppend(met[1..], last, found[EntryFor(met[0].kind, met[0].value) := ValueOf(met[0].kind, met[0].value)]);
    }
  }

  /** The dictionary has, under every key, the last option that stands under it: sizes and
      scales as numbers, the others as they are. */
  lemma {:induction false} EnteredIsLast(met: seq<RawOption>, key: OptionKey)
    ensures var found := Enter(met, map[]);
            match LastUnder(met, key)
            case None => key !in found
            case Some(last) =>
              key in found && found[key] == match key
                                            case Mss => Number(last.value[0] as int * 256 + last.value[1] as int)
                                            case WindowScale => Number(last.value[0])
                                            case Kind(_) => Raw(last.value)
    decreases |met|
  {
    if |met| > 0 {
      var init, last := met[..|met| - 1], met[|met| - 1];
      EnteredIsLast(init, key);
      EnterAppend(init, last, map[]);
      assert init + [last] == met;
    }
  }

  /** The negotiated size is the last one offered, at most 1460, and 1460 if none is. */
  lemma NegotiatedMssIs(options: bytes)
    ensures NegotiatedMss(options) == match LastUnder(Walk(options), Mss)
                                      case None => 1460
                                      case Some(last) =>
                                        var size := last.value[0] as int * 256 + last.value[1] as int;
                                        if size <= 1460 then size else 1460
  {
    EnteredIsLast(Walk(options), Mss);
  }

  // ---- Every byte string ----

  /** What ends a walk: nothing, an end marker, or an option that is not whole. */
  predicate Stops(tail: bytes) {
    || |tail| == 0 || tail[0] == 0
    || (tail[0] >= 2 && (|tail| == 1 || tail[1] < 2 || tail[1] as int > |tail|))
  }

  lemma {:induction false} WalkStops(options: seq<TcpOption>, tail: bytes)
    requires Stops(tail)
    ensures Walk(Encode(options) + tail) == Meaning(options)
  {
    if |options| == 0 {
      assert Encode(options) + tail == tail;
    } else {
      Assoc(EncodeOne(options[0]), Encode(options[1..]), tail);
      WalkOne(options[0], Encode(options[1..]) + tail);
      WalkStops(options[1..], tail);
    }
  }

  /** Unless something ends the walk there, a whole option stands first. */
  lemma FirstWhole(o: bytes) returns (first: TcpOption, rest: bytes)
    requires !Stops(o)
    ensures o == EncodeOne(first) + rest && |rest| < |o|
  {
    first := if o[0] == 1 then Nop else Option_(o[0], o[2..o[1]]);
    rest := o[|EncodeOne(first)|..];
  }

  /** Every option area is a well-formed list and something that ends the walk; what is read
      is exactly the list. */
  lemma {:induction false} EveryOptionArea(o: bytes) returns (options: seq<TcpOption>, tail: bytes)
    ensures o == Encode(options) + tail && Stops(tail) && Walk(o) == Meaning(options)
    decreases |o|
  {
    options, tail := [], o;
    if !Stops(o) {
      var first, rest := FirstWhole(o);
      var more, t := EveryOptionArea(rest);
      Assoc(EncodeOne(first), Encode(more), t);
      assert ([first] + more)[1..] == more;
      options, tail := [first] + more, t;
    }
    WalkStops(options, tail);
    assert [] + o == o;
  }
}
