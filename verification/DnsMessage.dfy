/** DNS messages (RFC 1035 section 4.1). */
module DnsMessage {
  import opened Bytes
  import opened HopReader
  import opened DnsName

  // ---- Writing names ----

  /** Python's `s.split('.')`. */
  function Split(s: string): (parts: seq<string>)
    ensures |parts| >= 1
  {
    if |s| == 0 then [""]
    else
      var rest := Split(s[1..]);
      if s[0] == '.' then [""] + rest else [[s[0]] + rest[0]] + rest[1..]
  }

  /** ASCII encoding with replacement. */
  function ByteOf(c: char): byte { if c as int < 128 then c as int else 63 }

  function Ascii(s: string): (b: bytes)
    ensures |b| == |s|
  {
    if |s| == 0 then [] else [ByteOf(s[0])] + Ascii(s[1..])
  }

  /** A label that can stand on the wire. */
  type Piece = b: bytes | 1 <= |b| <= 63 witness [0]

  function PieceOf(text: string): Piece
    requires text != ""
  {
    Slice(Ascii(text), 0, 63)
  }

  /** Empty labels are dropped, the others encoded and cut to 63 bytes. */
  function Pieces(parts: seq<string>): seq<Piece> {
    if |parts| == 0 then []
    else if parts[0] == "" then Pieces(parts[1..])
    else [PieceOf(parts[0])] + Pieces(parts[1..])
  }

  function PieceBytes(pieces: seq<Piece>): bytes {
    if |pieces| == 0 then [] else [|pieces[0]|] + pieces[0] + PieceBytes(pieces[1..])
  }

  function NameBytes(name: string): bytes { PieceBytes(Pieces(Split(name))) + [0] }

  lemma {:induction false} PieceBytesConcat(a: seq<Piece>, b: seq<Piece>)
    ensures PieceBytes(a + b) == PieceBytes(a) + PieceBytes(b)
  {
    if |a| == 0 {
      assert a + b == b;
    } else {
      assert (a + b)[1..] == a[1..] + b;
      PieceBytesConcat(a[1..], b);
    }
  }

  lemma {:induction false} PiecesConcat(a: seq<string>, b: seq<string>)
    ensures Pieces(a + b) == Pieces(a) + Pieces(b)
  {
    if |a| == 0 {
      assert a + b == b;
    } else {
      assert (a + b)[1..] == a[1..] + b;
      PiecesConcat(a[1..], b);
    }
  }

  lemma OneMorePart(parts: seq<string>, part: string)
    ensures PieceBytes(Pieces(parts + [part]))
         == PieceBytes(Pieces(parts)) + (if part == "" then [] else [|PieceOf(part)|] + PieceOf(part))
  {
    PiecesConcat(parts, [part]);
    PieceBytesConcat(Pieces(parts), Pieces([part]));
    if part == "" {
      assert Pieces([part]) == [];
    } else {
      assert Pieces([part]) == [PieceOf(part)];
      assert PieceBytes([PieceOf(part)]) == [|PieceOf(part)|] + PieceOf(part) + PieceBytes([]);
    }
  }

  method WriteDnsName(name: string) returns (out: bytes)
    ensures out == NameBytes(name)
  {
    out := [];
    if name != "" {
      var parts := Split(name);
      for i := 0 to |parts|
        invariant out == PieceBytes(Pieces(parts[..i]))
      {
        assert parts[..i + 1] == parts[..i] + [parts[i]];
        OneMorePart(parts[..i], parts[i]);
        if parts[i] != "" {
          var data := Slice(Ascii(parts[i]), 0, 63);
          out := out + ([|data|] + data);
        }
      }
      assert parts[..|parts|] == parts;
    }
    out := out + [0];
  }

  // ---- What a written name is read back as ----

  function Texts(pieces: seq<Piece>): seq<string> {
    if |pieces| == 0 then [] else [Text(pieces[0])] + Texts(pieces[1..])
  }

  /** The name with empty labels dropped, every label cut to 63 characters and every
      character outside ASCII replaced by a question mark. */
  function Normalized(name: string): string { Join(Texts(Pieces(Split(name)))) }

  lemma PieceStands(p: bytes, off: nat, l: Piece, rest: bytes)
    requires off <= |p| && p[off..] == [|l|] + l + rest
    ensures off + 1 + |l| <= |p| && p[off] == |l| && p[off + 1..off + 1 + |l|] == l && p[off + 1 + |l|..] == rest
  {
    Assoc([|l|], l, rest);
    TakeFront(p, off, [|l|], l + rest);
    assert p[off] == p[off..off + 1][0];
    TakeFront(p, off + 1, l, rest);
  }

  lemma HopOfPiece(p: bytes, off: nat, l: Piece)
    requires off + 1 + |l| <= |p| && p[off] == |l| && p[off + 1..off + 1 + |l|] == l
    ensures HopAt(p, off) == Label(Text(l), off + 1 + |l|)
  {
    assert Slice(p, off + 1, off + 1 + p[off] as int) == l;
  }

  lemma {:induction false} WrittenNameDecodes(p: bytes, h: nat -> Hop, off: nat, pieces: seq<Piece>, rest: bytes)
    requires HopsAre(p, h) && off <= |p| && p[off..] == PieceBytes(pieces) + ([0] + rest)
    ensures Decode(h, off, |pieces|) == Name(Texts(pieces), off + |PieceBytes(pieces)| + 1)
    decreases |pieces|
  {
    assert Here(off);
    if |pieces| == 0 {
      assert p[off..] == [0] + rest;
      assert p[off] == p[off..][0] == 0;
    } else {
      var l := pieces[0];
      Assoc([|l|] + l, PieceBytes(pieces[1..]), [0] + rest);
      PieceStands(p, off, l, PieceBytes(pieces[1..]) + ([0] + rest));
      HopOfPiece(p, off, l);
      WrittenNameDecodes(p, h, off + 1 + |l|, pieces[1..], rest);
      LabelBefore(h, off, |pieces| - 1, Text(l), off + 1 + |l|, Texts(pieces[1..]), off + |PieceBytes(pieces)| + 1);
    }
  }

  /** Wherever a written name stands in a packet, the reader terminates there and returns
      the normalized name and the offset behind it. */
  lemma WrittenNameReadsBack(p: bytes, off: nat, name: string, rest: bytes)
    requires off <= |p| && p[off..] == NameBytes(name) + rest
    ensures Terminates(p, off) && ReadName(p, off) == Ok((Normalized(name), off + |NameBytes(name)|))
  {
    var pieces := Pieces(Split(name));
    Assoc(PieceBytes(pieces), [0], rest);
    WrittenNameDecodes(p, Hops(p), off, pieces, rest);
    FuelIsEnough(p, off, |pieces|);
  }

  // ---- Canonical names ----

  predicate PlainLabel(l: string) {
    1 <= |l| <= 63 && forall i :: 0 <= i < |l| ==> l[i] != '.' && l[i] as int < 128
  }

  predicate PlainLabels(ls: seq<string>) { forall i :: 0 <= i < |ls| ==> PlainLabel(ls[i]) }

  /** ASCII labels of 1 to 63 characters joined by dots. */
  ghost predicate Canonical(name: string) {
    exists ls :: PlainLabels(ls) && name == Join(ls)
  }

  lemma {:induction false} SplitLabel(l: string, rest: string)
    requires forall i :: 0 <= i < |l| ==> l[i] != '.'
    ensures Split(l) == [l] && Split(l + "." + rest) == [l] + Split(rest)
  {
    if |l| == 0 {
      assert (l + "." + rest)[1..] == rest;
    } else {
      SplitLabel(l[1..], rest);
      assert (l + "." + rest)[1..] == l[1..] + "." + rest;
      assert [l[0]] + l[1..] == l;
    }
  }

  predicate Dotless(ls: seq<string>) { forall i, j :: 0 <= i < |ls| && 0 <= j < |ls[i]| ==> ls[i][j] != '.' }

  lemma {:induction false} SplitJoin(ls: seq<string>)
    requires |ls| > 0 && Dotless(ls)
    ensures Split(Join(ls)) == ls
  {
    if |ls| == 1 {
      SplitLabel(ls[0], "");
    } else {
      SplitJoin(ls[1..]);
      SplitLabel(ls[0], Join(ls[1..]));
    }
  }

  lemma {:induction false} TextOfAscii(l: string)
    requires forall i :: 0 <= i < |l| ==> l[i] as int < 128
    ensures Text(Ascii(l)) == l
  {
    if |l| > 0 {
      TextOfAscii(l[1..]);
      assert Ascii(l)[1..] == Ascii(l[1..]);
    }
  }

  lemma {:induction false} PlainPieces(ls: seq<string>)
    requires PlainLabels(ls)
    ensures Texts(Pieces(ls)) == ls
  {
    if |ls| > 0 {
      PlainPieces(ls[1..]);
      TextOfAscii(ls[0]);
      assert Slice(Ascii(ls[0]), 0, 63) == Ascii(ls[0]);
    }
  }

  /** Normalizing leaves canonical names, and only them, alone. */
  lemma NormalizedIffCanonical(name: string)
    ensures Normalized(name) == name <==> Canonical(name)
    ensures Canonical(Normalized(name))
  {
    SplitPlain(name);
    TextsPlain(Split(name));
    if Canonical(name) {
      var ls :| PlainLabels(ls) && name == Join(ls);
      if |ls| == 0 {
        assert Pieces([""]) == Pieces([]);
      } else {
        SplitJoin(ls);
        PlainPieces(ls);
      }
    }
  }

  lemma {:induction false} SplitPlain(name: string)
    ensures forall i, j :: 0 <= i < |Split(name)| && 0 <= j < |Split(name)[i]| ==> Split(name)[i][j] != '.'
  {
    if |name| > 0 { SplitPlain(name[1..]); }
  }

  lemma {:induction false} TextsPlain(parts: seq<string>)
    requires forall i, j :: 0 <= i < |parts| && 0 <= j < |parts[i]| ==> parts[i][j] != '.'
    ensures PlainLabels(Texts(Pieces(parts)))
  {
    if |parts| > 0 {
      TextsPlain(parts[1..]);
      if parts[0] != "" {
        AsciiPlain(parts[0]);
        TextPlain(PieceOf(parts[0]));
      }
    }
  }

  function NonEmpty(ls: seq<string>): seq<string> {
    if |ls| == 0 then [] else (if ls[0] == "" then [] else [ls[0]]) + NonEmpty(ls[1..])
  }

  /** `n` is the label `l` cut to 63 characters, question marks standing for whatever is not
      ASCII. */
  predicate Cleaned(l: string, n: string) {
    && |n| == (if |l| <= 63 then |l| else 63)
    && forall j :: 0 <= j < |n| ==> n[j] == (if l[j] as int < 128 then l[j] else '?')
  }

  lemma {:induction false} CleanText(l: string, k: nat)
    requires k <= |l|
    ensures var n := Text(Ascii(l)[..k]);
            |n| == k && forall j :: 0 <= j < k ==> n[j] == (if l[j] as int < 128 then l[j] else '?')
  {
    if k > 0 {
      CleanText(l[1..], k - 1);
      assert Ascii(l)[..k][1..] == Ascii(l[1..])[..k - 1];
    }
  }

  lemma {:induction false} TextsClean(ls: seq<string>)
    ensures var ns := Texts(Pieces(ls));
            |ns| == |NonEmpty(ls)| && forall i :: 0 <= i < |ns| ==> Cleaned(NonEmpty(ls)[i], ns[i])
  {
    if |ls| > 0 {
      TextsClean(ls[1..]);
      if ls[0] != "" { CleanText(ls[0], if |ls[0]| <= 63 then |ls[0]| else 63); }
    }
  }

  /** Of the labels between the dots, the empty ones are dropped and the others cleaned. */
  lemma NormalizedIs(ls: seq<string>) returns (ns: seq<string>)
    requires |ls| > 0 && Dotless(ls)
    ensures Normalized(Join(ls)) == Join(ns) && |ns| == |NonEmpty(ls)|
    ensures forall i :: 0 <= i < |ns| ==> Cleaned(NonEmpty(ls)[i], ns[i])
  {
    SplitJoin(ls);
    TextsClean(ls);
    ns := Texts(Pieces(ls));
  }

  predicate PlainBytes(b: bytes) { forall i :: 0 <= i < |b| ==> b[i] < 128 && b[i] != 46 }

  lemma {:induction false} AsciiPlain(l: string)
    requires forall i :: 0 <= i < |l| ==> l[i] != '.'
    ensures PlainBytes(Ascii(l))
  {
    if |l| > 0 { AsciiPlain(l[1..]); }
  }

  lemma {:induction false} TextPlain(b: bytes)
    requires PlainBytes(b)
    ensures |Text(b)| == |b| && forall i :: 0 <= i < |b| ==> Text(b)[i] != '.' && Text(b)[i] as int < 128
  {
    if |b| > 0 { TextPlain(b[1..]); }
  }

  // ---- Messages ----

  datatype Question = Question(name: string, qtype: u16, qclass: u16)
  datatype Answer = Answer(name: string, atype: u16, aclass: u16, ttl: u32, rdata: bytes)
  datatype Message = Message(txid: u16, flags: u16, qd: seq<Question>, an: seq<Answer>)

  /** What parsing does: it may raise, and on some packets it does not return. */
  datatype Reading<T> = Got(item: T, next: nat) | Raised(error: Error) | Diverges
  datatype Parsed = Parsed(message: Message) | ParseRaised(parseError: Error) | ParseDiverges

  function QuestionBytes(q: Question): bytes {
    NameBytes(q.name) + (Pack16(q.qtype) + Pack16(q.qclass))
  }

  function AnswerHead(a: Answer): bytes
    requires |a.rdata| <= 0xffff
  {
    Pack16(a.atype) + Pack16(a.aclass) + Pack32(a.ttl) + Pack16(|a.rdata|)
  }

  function AnswerBytes(a: Answer): bytes
    requires |a.rdata| <= 0xffff
  {
    NameBytes(a.name) + (AnswerHead(a) + a.rdata)
  }

  function AllQuestions(qs: seq<Question>): bytes {
    if |qs| == 0 then [] else QuestionBytes(qs[0]) + AllQuestions(qs[1..])
  }

  predicate Packable(an: seq<Answer>) { forall i :: 0 <= i < |an| ==> |an[i].rdata| <= 0xffff }

  function AllAnswers(an: seq<Answer>): bytes
    requires Packable(an)
  {
    if |an| == 0 then [] else AnswerBytes(an[0]) + AllAnswers(an[1..])
  }

  function ToBytes(m: Message): Option<bytes> {
    if |m.qd| > 0xffff || |m.an| > 0xffff || !Packable(m.an) then None
    else Some(Pack16(m.txid) + Pack16(m.flags) + Pack16(|m.qd|) + Pack16(|m.an|) + [0, 0, 0, 0]
              + (AllQuestions(m.qd) + AllAnswers(m.an)))
  }

  /** One question at `off`. */
  function ReadQuestion(p: bytes, off: nat): Reading<Question> {
    if !Terminates(p, off) then Diverges
    else match ReadName(p, off)
      case Err(e) => Raised(e)
      case Ok((name, o)) =>
        if o + 4 > |p| then Raised(StructError)
        else Got(Question(name, Unpack16(p, o), Unpack16(p, o + 2)), o + 4)
  }

  /** One answer at `off`; data cut short by the end of the packet is taken as it is. */
  function ReadAnswer(p: bytes, off: nat): Reading<Answer> {
    if !Terminates(p, off) then Diverges
    else match ReadName(p, off)
      case Err(e) => Raised(e)
      case Ok((name, o)) =>
        if o + 10 > |p| then Raised(StructError)
        else
          var end := o + 10 + Unpack16(p, o + 8);
          Got(Answer(name, Unpack16(p, o), Unpack16(p, o + 2), Unpack32(p, o + 4), Slice(p, o + 10, end)), end)
  }

  /** `n` items one behind the other. */
  function ReadAll<T>(one: nat -> Reading<T>, off: nat, n: nat): Reading<seq<T>>
    decreases n
  {
    if n == 0 then Got([], off)
    else match one(off)
      case Raised(e) => Raised(e)
      case Diverges => Diverges
      case Got(item, o) =>
        match ReadAll(one, o, n - 1)
        case Got(items, next) => Got([item] + items, next)
        case other => other
  }

  function Questions(p: bytes): nat -> Reading<Question> { (off: nat) => ReadQuestion(p, off) }

  function Answers(p: bytes): nat -> Reading<Answer> { (off: nat) => ReadAnswer(p, off) }

  function Parse(p: bytes): Parsed {
    if |p| < 12 then ParseRaised(ValueError)
    else match ReadAll(Questions(p), 12, Unpack16(p, 4))
      case Raised(e) => ParseRaised(e)
      case Diverges => ParseDiverges
      case Got(qd, off) =>
        match ReadAll(Answers(p), off, Unpack16(p, 6))
        case Raised(e) => ParseRaised(e)
        case Diverges => ParseDiverges
        case Got(an, _) => Parsed(Message(Unpack16(p, 0), Unpack16(p, 2), qd, an))
  }

  // ---- Round trip ----

  function NormalQuestions(qs: seq<Question>): seq<Question> {
    if |qs| == 0 then [] else [qs[0].(name := Normalized(qs[0].name))] + NormalQuestions(qs[1..])
  }

  function NormalAnswers(an: seq<Answer>): seq<Answer> {
    if |an| == 0 then [] else [an[0].(name := Normalized(an[0].name))] + NormalAnswers(an[1..])
  }

  lemma QuestionReadsBack(p: bytes, off: nat, q: Question, rest: bytes)
    requires off <= |p| && p[off..] == QuestionBytes(q) + rest
    ensures var next := off + |QuestionBytes(q)|;
            next <= |p| && ReadQuestion(p, off) == Got(q.(name := Normalized(q.name)), next) && p[next..] == rest
  {
    var n, fields := NameBytes(q.name), Pack16(q.qtype) + Pack16(q.qclass);
    Assoc(n, fields, rest);
    WrittenNameReadsBack(p, off, q.name, fields + rest);
    TakeFront(p, off, n, fields + rest);
    TakeFront(p, off + |n|, fields, rest);
    FieldsOfQuestion(p, off + |n|, q);
  }

  lemma FieldsOfQuestion(p: bytes, o: nat, q: Question)
    requires o + 4 <= |p| && p[o..o + 4] == Pack16(q.qtype) + Pack16(q.qclass)
    ensures Unpack16(p, o) == q.qtype && Unpack16(p, o + 2) == q.qclass
  {
    var f := p[o..o + 4];
    assert p[o] == f[0] && p[o + 1] == f[1] && p[o + 2] == f[2] && p[o + 3] == f[3];
  }

  lemma FieldsOfAnswer(p: bytes, o: nat, a: Answer)
    requires |a.rdata| <= 0xffff && o + 10 <= |p| && p[o..o + 10] == AnswerHead(a)
    ensures Unpack16(p, o) == a.atype && Unpack16(p, o + 2) == a.aclass
    ensures Unpack32(p, o + 4) == a.ttl && Unpack16(p, o + 8) == |a.rdata|
  {
    var head := AnswerHead(a);
    assert forall i :: 0 <= i < 10 ==> p[o + i] == p[o..o + 10][i] == head[i];
    assert head[4..8] == Pack32(a.ttl);
    assert forall i :: 4 <= i < 8 ==> head[i] == Pack32(a.ttl)[i - 4];
  }

  /** The pieces of a written answer stand one behind the other. */
  lemma AnswerStands(p: bytes, off: nat, a: Answer, rest: bytes)
    requires |a.rdata| <= 0xffff && off <= |p| && p[off..] == AnswerBytes(a) + rest
    ensures var o := off + |NameBytes(a.name)|;
            && o + 10 + |a.rdata| <= |p| && p[off..] == NameBytes(a.name) + p[o..] && p[o..o + 10] == AnswerHead(a)
            && p[o + 10..o + 10 + |a.rdata|] == a.rdata && p[o + 10 + |a.rdata|..] == rest
  {
    var n, head := NameBytes(a.name), AnswerHead(a);
    Assoc(n, head + a.rdata, rest);
    Assoc(head, a.rdata, rest);
    TakeFront(p, off, n, head + (a.rdata + rest));
    TakeFront(p, off + |n|, head, a.rdata + rest);
    TakeFront(p, off + |n| + 10, a.rdata, rest);
  }

  lemma AnswerAssembled(p: bytes, off: nat, name: string, o: nat, a: Answer)
    requires |a.rdata| <= 0xffff && Terminates(p, off) && ReadName(p, off) == Ok((name, o))
    requires o + 10 + |a.rdata| <= |p| && p[o..o + 10] == AnswerHead(a) && p[o + 10..o + 10 + |a.rdata|] == a.rdata
    ensures ReadAnswer(p, off) == Got(a.(name := name), o + 10 + |a.rdata|)
  {
    FieldsOfAnswer(p, o, a);
    assert Slice(p, o + 10, o + 10 + |a.rdata|) == a.rdata;
  }

  lemma AnswerReadsBack(p: bytes, off: nat, a: Answer, rest: bytes)
    requires |a.rdata| <= 0xffff && off <= |p| && p[off..] == AnswerBytes(a) + rest
    ensures var next := off + |AnswerBytes(a)|;
            next <= |p| && ReadAnswer(p, off) == Got(a.(name := Normalized(a.name)), next) && p[next..] == rest
  {
    AnswerStands(p, off, a, rest);
    var o := off + |NameBytes(a.name)|;
    WrittenNameReadsBack(p, off, a.name, p[o..]);
    AnswerAssembled(p, off, Normalized(a.name), o, a);
  }

  /** `one` reads the packet's questions (answers), to be looked at one marked offset at a
      time. */
  ghost predicate AsksAt(p: bytes, one: nat -> Reading<Question>) {
    forall o: nat {:trigger Here(o)} :: one(o) == ReadQuestion(p, o)
  }

  ghost predicate AnswersAt(p: bytes, one: nat -> Reading<Answer>) {
    forall o: nat {:trigger Here(o)} :: one(o) == ReadAnswer(p, o)
  }

  lemma OneThenRest<T>(one: nat -> Reading<T>, off: nat, n: nat, item: T, o: nat, items: seq<T>, next: nat)
    requires n > 0 && one(off) == Got(item, o) && ReadAll(one, o, n - 1) == Got(items, next)
    ensures ReadAll(one, off, n) == Got([item] + items, next)
  {
  }

  lemma FirstQuestion(qs: seq<Question>, rest: bytes)
    requires |qs| > 0
    ensures AllQuestions(qs) + rest == QuestionBytes(qs[0]) + (AllQuestions(qs[1..]) + rest)
    ensures |AllQuestions(qs)| == |QuestionBytes(qs[0])| + |AllQuestions(qs[1..])|
    ensures NormalQuestions(qs) == [qs[0].(name := Normalized(qs[0].name))] + NormalQuestions(qs[1..])
  {
    Assoc(QuestionBytes(qs[0]), AllQuestions(qs[1..]), rest);
  }

  lemma OneQuestionRead(p: bytes, one: nat -> Reading<Question>, off: nat, q: Question, rest: bytes)
    requires AsksAt(p, one) && off <= |p| && p[off..] == QuestionBytes(q) + rest
    ensures var next := off + |QuestionBytes(q)|;
            next <= |p| && one(off) == Got(q.(name := Normalized(q.name)), next) && p[next..] == rest
  {
    QuestionReadsBack(p, off, q, rest);
    assert Here(off);
  }

  lemma QuestionStep(p: bytes, one: nat -> Reading<Question>, off: nat, qs: seq<Question>, rest: bytes)
    requires AsksAt(p, one) && |qs| > 0
    requires off <= |p| && p[off..] == AllQuestions(qs) + rest
    ensures var o := off + |QuestionBytes(qs[0])|;
            && o <= |p| && one(off) == Got(qs[0].(name := Normalized(qs[0].name)), o)
            && p[o..] == AllQuestions(qs[1..]) + rest
  {
    FirstQuestion(qs, rest);
    OneQuestionRead(p, one, off, qs[0], AllQuestions(qs[1..]) + rest);
  }

  lemma {:induction false} QuestionsReadBack(p: bytes, one: nat -> Reading<Question>, off: nat, qs: seq<Question>,
                                               rest: bytes)
    requires AsksAt(p, one)
    requires off <= |p| && p[off..] == AllQuestions(qs) + rest
    ensures var next := off + |AllQuestions(qs)|;
            next <= |p| && ReadAll(one, off, |qs|) == Got(NormalQuestions(qs), next) && p[next..] == rest
    decreases |qs|
  {
    if |qs| == 0 {
      assert AllQuestions(qs) + rest == rest;
    } else {
      var q := qs[0];
      var o := off + |QuestionBytes(q)|;
      QuestionStep(p, one, off, qs, rest);
      QuestionsReadBack(p, one, o, qs[1..], rest);
      FirstQuestion(qs, rest);
      OneThenRest(one, off, |qs|, q.(name := Normalized(q.name)), o, NormalQuestions(qs[1..]),
                  o + |AllQuestions(qs[1..])|);
    }
  }

  lemma FirstAnswer(an: seq<Answer>, rest: bytes)
    requires |an| > 0 && Packable(an)
    ensures Packable(an[1..])
    ensures AllAnswers(an) + rest == AnswerBytes(an[0]) + (AllAnswers(an[1..]) + rest)
    ensures |AllAnswers(an)| == |AnswerBytes(an[0])| + |AllAnswers(an[1..])|
    ensures NormalAnswers(an) == [an[0].(name := Normalized(an[0].name))] + NormalAnswers(an[1..])
  {
    Assoc(AnswerBytes(an[0]), AllAnswers(an[1..]), rest);
  }

  lemma OneAnswerRead(p: bytes, one: nat -> Reading<Answer>, off: nat, a: Answer, rest: bytes)
    requires AnswersAt(p, one) && |a.rdata| <= 0xffff && off <= |p| && p[off..] == AnswerBytes(a) + rest
    ensures var next := off + |AnswerBytes(a)|;
            next <= |p| && one(off) == Got(a.(name := Normalized(a.name)), next) && p[next..] == rest
  {
    AnswerReadsBack(p, off, a, rest);
    assert Here(off);
  }

  /** The packet from `off` on, seen as the first answer and what is behind it. */
  lemma AnswerAhead(p: bytes, off: nat, an: seq<Answer>, rest: bytes)
    requires |an| > 0 && Packable(an)
    requires off <= |p| && p[off..] == AllAnswers(an) + rest
    ensures p[off..] == AnswerBytes(an[0]) + (AllAnswers(an[1..]) + rest)
  {
    FirstAnswer(an, rest);
  }

  lemma AnswerStep(p: bytes, one: nat -> Reading<Answer>, off: nat, an: seq<Answer>, rest: bytes)
    requires AnswersAt(p, one) && |an| > 0 && Packable(an)
    requires off <= |p| && p[off..] == AllAnswers(an) + rest
    ensures Packable(an[1..])
    ensures var o := off + |AnswerBytes(an[0])|;
            && o <= |p| && one(off) == Got(an[0].(name := Normalized(an[0].name)), o)
            && p[o..] == AllAnswers(an[1..]) + rest
  {
    AnswerAhead(p, off, an, rest);
    OneAnswerRead(p, one, off, an[0], AllAnswers(an[1..]) + rest);
  }

  lemma {:induction false} AnswersReadBack(p: bytes, one: nat -> Reading<Answer>, off: nat, an: seq<Answer>,
                                             rest: bytes)
    requires AnswersAt(p, one)
    requires Packable(an) && off <= |p| && p[off..] == AllAnswers(an) + rest
    ensures ReadAll(one, off, |an|) == Got(NormalAnswers(an), off + |AllAnswers(an)|)
    decreases |an|
  {
    if |an| > 0 {
      var a := an[0];
      var o := off + |AnswerBytes(a)|;
      AnswerStep(p, one, off, an, rest);
      AnswersReadBack(p, one, o, an[1..], rest);
      FirstAnswer(an, rest);
      assert o + |AllAnswers(an[1..])| == off + |AllAnswers(an)|;
      OneThenRest(one, off, |an|, a.(name := Normalized(a.name)), o, NormalAnswers(an[1..]),
                  o + |AllAnswers(an[1..])|);
    }
  }

  lemma HeaderReads(m: Message)
    requires ToBytes(m).Some?
    ensures var p := ToBytes(m).value;
            && |p| >= 12 && Unpack16(p, 0) == m.txid && Unpack16(p, 2) == m.flags
            && Unpack16(p, 4) == |m.qd| && Unpack16(p, 6) == |m.an|
            && p[12..] == AllQuestions(m.qd) + AllAnswers(m.an)
  {
    var p := ToBytes(m).value;
    var head := Pack16(m.txid) + Pack16(m.flags) + Pack16(|m.qd|) + Pack16(|m.an|) + [0, 0, 0, 0];
    assert p == head + (AllQuestions(m.qd) + AllAnswers(m.an));
    assert head == [m.txid / 0x100, m.txid % 0x100, m.flags / 0x100, m.flags % 0x100,
                    |m.qd| / 0x100, |m.qd| % 0x100, |m.an| / 0x100, |m.an| % 0x100, 0, 0, 0, 0];
    assert forall i :: 0 <= i < 12 ==> p[i] == head[i];
  }

  /** Every printable message is read back with its names normalized; parsing terminates
      on everything the program prints. */
  lemma MessageRoundTrip(m: Message)
    requires ToBytes(m).Some?
    ensures Parse(ToBytes(m).value)
         == Parsed(Message(m.txid, m.flags, NormalQuestions(m.qd), NormalAnswers(m.an)))
  {
    var p := ToBytes(m).value;
    HeaderReads(m);
    QuestionsReadBack(p, Questions(p), 12, m.qd, AllAnswers(m.an));
    assert AllAnswers(m.an) + [] == AllAnswers(m.an);
    AnswersReadBack(p, Answers(p), 12 + |AllQuestions(m.qd)|, m.an, []);
  }

  ghost predicate CanonicalNames(m: Message) {
    && (forall i :: 0 <= i < |m.qd| ==> Canonical(m.qd[i].name))
    && (forall i :: 0 <= i < |m.an| ==> Canonical(m.an[i].name))
  }

  lemma {:induction false} NormalQuestionsSame(qs: seq<Question>)
    requires forall i :: 0 <= i < |qs| ==> Canonical(qs[i].name)
    ensures NormalQuestions(qs) == qs
  {
    if |qs| > 0 {
      NormalizedIffCanonical(qs[0].name);
      NormalQuestionsSame(qs[1..]);
    }
  }

  lemma {:induction false} NormalAnswersSame(an: seq<Answer>)
    requires forall i :: 0 <= i < |an| ==> Canonical(an[i].name)
    ensures NormalAnswers(an) == an
  {
    if |an| > 0 {
      NormalizedIffCanonical(an[0].name);
      NormalAnswersSame(an[1..]);
    }
  }

  /** With canonical names the message itself comes back. */
  lemma CanonicalRoundTrip(m: Message)
    requires ToBytes(m).Some? && CanonicalNames(m)
    ensures Parse(ToBytes(m).value) == Parsed(m)
  {
    MessageRoundTrip(m);
    NormalQuestionsSame(m.qd);
    NormalAnswersSame(m.an);
  }

  // ---- The loops ----

  /** Items already read put in front of what the rest reads as. */
  function Behind<T>(items: seq<T>, rest: Reading<seq<T>>): Reading<seq<T>> {
    match rest
    case Got(more, next) => Got(items + more, next)
    case other => other
  }

  /** Reading one item more. */
  lemma ReadNext<T>(one: nat -> Reading<T>, off: nat, n: nat, items: seq<T>, whole: Reading<seq<T>>)
    requires n > 0 && Behind(items, ReadAll(one, off, n)) == whole
    ensures whole != Diverges ==> one(off) != Diverges
    ensures one(off).Raised? ==> whole == Raised(one(off).error)
    ensures one(off).Got? ==> whole == Behind(items + [one(off).item], ReadAll(one, one(off).next, n - 1))
  {
    if one(off).Got? {
      var more := ReadAll(one, one(off).next, n - 1);
      if more.Got? { Assoc(items, [one(off).item], more.item); }
    }
  }

  lemma NothingYet<T>(whole: Reading<seq<T>>)
    ensures Behind([], whole) == whole
  {
    if whole.Got? { assert [] + whole.item == whole.item; }
  }

  method OneQuestion(payload: bytes, ghost one: nat -> Reading<Question>, offset: nat)
    returns (r: Result<(Question, nat)>)
    requires AsksAt(payload, one) && one(offset) != Diverges
    ensures one(offset) == match r case Ok((q, next)) => Got(q, next) case Err(e) => Raised(e)
  {
    assert Here(offset);
    var name := ReadDnsName(payload, offset);
    if name.Err? { return Err(name.error); }
    var o := name.value.1;
    if o + 4 > |payload| { return Err(StructError); }
    r := Ok((Question(name.value.0, Unpack16(payload, o), Unpack16(payload, o + 2)), o + 4));
  }

  method OneAnswer(payload: bytes, ghost one: nat -> Reading<Answer>, offset: nat)
    returns (r: Result<(Answer, nat)>)
    requires AnswersAt(payload, one) && one(offset) != Diverges
    ensures one(offset) == match r case Ok((a, next)) => Got(a, next) case Err(e) => Raised(e)
  {
    assert Here(offset);
    var name := ReadDnsName(payload, offset);
    if name.Err? { return Err(name.error); }
    var o := name.value.1;
    if o + 10 > |payload| { return Err(StructError); }
    var end := o + 10 + Unpack16(payload, o + 8);
    r := Ok((Answer(name.value.0, Unpack16(payload, o), Unpack16(payload, o + 2),
                    Unpack32(payload, o + 4), Slice(payload, o + 10, end)), end));
  }

  method ReadQuestions(payload: bytes, ghost one: nat -> Reading<Question>, start: nat, count: nat)
    returns (r: Result<(seq<Question>, nat)>)
    requires AsksAt(payload, one) && ReadAll(one, start, count) != Diverges
    ensures ReadAll(one, start, count)
         == match r case Ok((qd, next)) => Got(qd, next) case Err(e) => Raised(e)
  {
    ghost var whole := ReadAll(one, start, count);
    var qd: seq<Question>, offset: nat := [], start;
    NothingYet(whole);
    for i := 0 to count
      invariant Behind(qd, ReadAll(one, offset, count - i)) == whole
    {
      ReadNext(one, offset, count - i, qd, whole);
      var q := OneQuestion(payload, one, offset);
      if q.Err? { return Err(q.error); }
      qd := qd + [q.value.0];
      offset := q.value.1;
    }
    assert qd + [] == qd;
    r := Ok((qd, offset));
  }

  method ReadAnswers(payload: bytes, ghost one: nat -> Reading<Answer>, start: nat, count: nat)
    returns (r: Result<(seq<Answer>, nat)>)
    requires AnswersAt(payload, one) && ReadAll(one, start, count) != Diverges
    ensures ReadAll(one, start, count)
         == match r case Ok((an, next)) => Got(an, next) case Err(e) => Raised(e)
  {
    ghost var whole := ReadAll(one, start, count);
    var an: seq<Answer>, offset: nat := [], start;
    NothingYet(whole);
    for i := 0 to count
      invariant Behind(an, ReadAll(one, offset, count - i)) == whole
    {
      ReadNext(one, offset, count - i, an, whole);
      var a := OneAnswer(payload, one, offset);
      if a.Err? { return Err(a.error); }
      an := an + [a.value.0];
      offset := a.value.1;
    }
    assert an + [] == an;
    r := Ok((an, offset));
  }

  /** `DnsMessage.parse`, called where it returns. */
  method ParseMessage(payload: bytes) returns (r: Result<Message>)
    requires Parse(payload) != ParseDiverges
    ensures Parse(payload) == match r case Ok(m) => Parsed(m) case Err(e) => ParseRaised(e)
  {
    if |payload| < 12 { return Err(ValueError); }
    var qd := ReadQuestions(payload, Questions(payload), 12, Unpack16(payload, 4));
    if qd.Err? { return Err(qd.error); }
    var an := ReadAnswers(payload, Answers(payload), qd.value.1, Unpack16(payload, 6));
    if an.Err? { return Err(an.error); }
    r := Ok(Message(Unpack16(payload, 0), Unpack16(payload, 2), qd.value.0, an.value.0));
  }

  lemma QuestionsFrom(qs: seq<Question>, i: nat)
    requires i < |qs|
    ensures AllQuestions(qs[i..]) == QuestionBytes(qs[i]) + AllQuestions(qs[i + 1..])
  {
    assert qs[i..][1..] == qs[i + 1..];
  }

  lemma AnswersFrom(an: seq<Answer>, i: nat)
    requires i < |an| && Packable(an)
    ensures AllAnswers(an[i..]) == AnswerBytes(an[i]) + AllAnswers(an[i + 1..])
  {
    assert an[i..][1..] == an[i + 1..];
  }

  method QuestionsToBytes(qd: seq<Question>) returns (body: bytes)
    ensures body == AllQuestions(qd)
  {
    body := [];
    assert qd[0..] == qd;
    for i := 0 to |qd|
      invariant body + AllQuestions(qd[i..]) == AllQuestions(qd)
    {
      QuestionsFrom(qd, i);
      Assoc(body, QuestionBytes(qd[i]), AllQuestions(qd[i + 1..]));
      var name := WriteDnsName(qd[i].name);
      body := body + (name + (Pack16(qd[i].qtype) + Pack16(qd[i].qclass)));
    }
    assert body + [] == body;
  }

  method AnswersToBytes(an: seq<Answer>) returns (body: bytes)
    requires Packable(an)
    ensures body == AllAnswers(an)
  {
    body := [];
    assert an[0..] == an;
    for i := 0 to |an|
      invariant body + AllAnswers(an[i..]) == AllAnswers(an)
    {
      AnswersFrom(an, i);
      Assoc(body, AnswerBytes(an[i]), AllAnswers(an[i + 1..]));
      var name := WriteDnsName(an[i].name);
      body := body + (name + (AnswerHead(an[i]) + an[i].rdata));
    }
    assert body + [] == body;
  }

  /** `DnsMessage.to_bytes`; `None` where packing raises. */
  method MessageToBytes(m: Message) returns (r: Option<bytes>)
    ensures r == ToBytes(m)
  {
    if |m.qd| > 0xffff || |m.an| > 0xffff || !Packable(m.an) { return None; }
    var questions := QuestionsToBytes(m.qd);
    var answers := AnswersToBytes(m.an);
    r := Some(Pack16(m.txid) + Pack16(m.flags) + Pack16(|m.qd|) + Pack16(|m.an|) + [0, 0, 0, 0]
              + (questions + answers));
  }
}
