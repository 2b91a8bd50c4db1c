/** Reading a name hop by hop, for any way of hopping: a label leads on to the next offset, a
    pointer to its target. */
module HopReader {
  import opened Bytes
  import opened Orbits

  /** What a reader does at an offset: stops (a zero byte, or the end of the packet), takes
      a label, follows a pointer, or reads past the end for a pointer's second byte. */
  datatype Hop = Stop(next: nat) | Label(text: string, next: nat) | Jump(target: nat, after: nat) | Overrun

  datatype Outcome = Name(labels: seq<string>, next: nat) | ReadBeyondEnd | OutOfFuel

  /** The name at `off`, following at most `fuel` labels and pointers: a pointer is replaced
      by the name it points to, and the name ends behind the first pointer. */
  function Decode(h: nat -> Hop, off: nat, fuel: nat): Outcome
    decreases fuel
  {
    match h(off)
    case Stop(next) => Name([], next)
    case Overrun => ReadBeyondEnd
    case Label(text, next) =>
      if fuel == 0 then OutOfFuel
      else (match Decode(h, next, fuel - 1)
            case Name(labels, end) => Name([text] + labels, end)
            case other => other)
    case Jump(target, after) =>
      if fuel == 0 then OutOfFuel
      else (match Decode(h, target, fuel - 1)
            case Name(labels, _) => Name(labels, after)
            case other => other)
  }

  /** Where the reader goes from an offset, unless it stops there. */
  function Onward(h: nat -> Hop): nat -> Option<nat> {
    (off: nat) => match h(off)
      case Label(_, next) => Some(next)
      case Jump(target, _) => Some(target)
      case _ => None
  }

  lemma {:induction false} FuelRunsOutIff(h: nat -> Hop, off: nat, fuel: nat)
    ensures Decode(h, off, fuel) == OutOfFuel <==> Orbit(Onward(h), off, fuel + 1).Some?
    decreases fuel
  {
    var on := Onward(h)(off);
    if on.Some? {
      if fuel > 0 { FuelRunsOutIff(h, on.value, fuel - 1); }
      assert Orbit(Onward(h), off, fuel + 1) == Orbit(Onward(h), on.value, fuel);
    }
  }

  lemma {:induction false} MoreFuelSame(h: nat -> Hop, off: nat, fuel: nat, more: nat)
    requires fuel <= more && Decode(h, off, fuel) != OutOfFuel
    ensures Decode(h, off, more) == Decode(h, off, fuel)
    decreases fuel
  {
    match h(off)
    case Label(_, next) => MoreFuelSame(h, next, fuel - 1, more - 1);
    case Jump(target, _) => MoreFuelSame(h, target, fuel - 1, more - 1);
    case _ =>
  }

  /** When every offset from `bound` on stops the reader, it either stops within `bound`
      hops or has come back to an offset it left, and goes on for ever. */
  lemma AnyFuelIsEnough(h: nat -> Hop, bound: nat, off: nat, fuel: nat)
    requires forall y: nat :: Onward(h)(y).Some? ==> y < bound
    requires Decode(h, off, fuel) != OutOfFuel
    ensures Decode(h, off, bound) == Decode(h, off, fuel)
  {
    FuelRunsOutIff(h, off, fuel);
    FuelRunsOutIff(h, off, bound);
    if Decode(h, off, bound) == OutOfFuel { LongOrbitNeverStops(Onward(h), bound, off, fuel + 1); }
    if fuel <= bound { MoreFuelSame(h, off, fuel, bound); } else { MoreFuelSame(h, off, bound, fuel); }
  }

  /** The whole name, given what has been read of it and what is still to come. */
  function Resumed(labels: seq<string>, seenPointer: bool, returnOffset: nat, rest: Outcome): Outcome {
    match rest
    case Name(more, end) => Name(labels + more, if seenPointer then returnOffset else end)
    case other => other
  }

  lemma ResumeAtStart(o: Outcome, returnOffset: nat)
    ensures Resumed([], false, returnOffset, o) == o
  {
    match o
    case Name(more, _) => assert [] + more == more;
    case _ =>
  }

  /** `rest` is what is still to come from `off` on. */
  ghost predicate Ahead(h: nat -> Hop, off: nat, fuel: nat, rest: Outcome) {
    rest == Decode(h, off, fuel) && rest != OutOfFuel
  }

  lemma TakeLabel(h: nat -> Hop, off: nat, fuel: nat, rest: Outcome, text: string, next: nat,
                  labels: seq<string>, seen: bool, ret: nat) returns (more: Outcome)
    requires Ahead(h, off, fuel, rest) && h(off) == Label(text, next)
    ensures fuel > 0 && Ahead(h, next, fuel - 1, more)
    ensures Resumed(labels + [text], seen, ret, more) == Resumed(labels, seen, ret, rest)
  {
    more := Decode(h, next, fuel - 1);
    if more.Name? { Assoc(labels, [text], more.labels); }
  }

  lemma FollowPointer(h: nat -> Hop, off: nat, fuel: nat, rest: Outcome, target: nat, after: nat,
                      labels: seq<string>, seen: bool, ret: nat) returns (more: Outcome)
    requires Ahead(h, off, fuel, rest) && h(off) == Jump(target, after)
    ensures fuel > 0 && Ahead(h, target, fuel - 1, more)
    ensures Resumed(labels, true, if seen then ret else after, more) == Resumed(labels, seen, ret, rest)
  {
    more := Decode(h, target, fuel - 1);
  }

  lemma Stops(h: nat -> Hop, off: nat, fuel: nat, rest: Outcome)
    requires Ahead(h, off, fuel, rest)
    ensures h(off).Stop? ==> rest == Name([], h(off).next)
    ensures h(off).Overrun? ==> rest == ReadBeyondEnd
  {
  }

  lemma LabelBefore(h: nat -> Hop, off: nat, fuel: nat, text: string, next: nat, labels: seq<string>, end: nat)
    requires h(off) == Label(text, next) && Decode(h, next, fuel) == Name(labels, end)
    ensures Decode(h, off, fuel + 1) == Name([text] + labels, end)
  {
  }

  lemma PointerBefore(h: nat -> Hop, off: nat, fuel: nat, target: nat, after: nat, labels: seq<string>, end: nat)
    requires h(off) == Jump(target, after) && Decode(h, target, fuel) == Name(labels, end)
    ensures Decode(h, off, fuel + 1) == Name(labels, after)
  {
  }
}
