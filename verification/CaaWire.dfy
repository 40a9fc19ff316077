/** CAA responses on the wire, section 4.1 of RFC 1035 and section 4.1 of RFC 8659 (internal/probe/dns/resolver.go). */
module CaaWire {
  import opened Sequences

  type byte = n: int | 0 <= n < 256
  type uint16 = n: int | 0 <= n < 0x1_0000
  type bytes = seq<byte>

  const TYPE_CAA: uint16 := 257
  const CLASS_IN: uint16 := 1
  const DOT: byte := 46

  datatype Caa = Caa(flag: byte, tag: bytes, value: bytes)

  datatype Error =
    | TooShort | IdMismatch | Rcode(code: nat)
    | NameOutOfBounds | TruncatedPointer | LabelOutOfBounds
    | TruncatedHeader | TruncatedRdata | RdataTooShort | TagOutOfBounds | InvalidLabel

  datatype Result<+T> = Ok(value: T) | Err(error: Error)

  // ----- The decoder, as functions -----

  function Get16(msg: bytes, off: nat): uint16
    requires off + 2 <= |msg|
  {
    (msg[off] as int) * 256 + msg[off + 1]
  }

  /** The offset just past the possibly compressed name at off. */
  function Skip(msg: bytes, off: nat): (r: Result<nat>)
    ensures r.Ok? ==> off < r.value <= |msg|
    decreases |msg| - off
  {
    if off >= |msg| then Err(NameOutOfBounds)
    else if msg[off] == 0 then Ok(off + 1)
    else if msg[off] >= 0xC0 then if off + 1 >= |msg| then Err(TruncatedPointer) else Ok(off + 2)
    else if off + 1 + msg[off] > |msg| then Err(LabelOutOfBounds)
    else Skip(msg, off + 1 + msg[off])
  }

  function DecodeRecord(rdata: bytes): Result<Caa> {
    if |rdata| < 2 then Err(RdataTooShort)
    else if 2 + rdata[1] > |rdata| then Err(TagOutOfBounds)
    else Ok(Caa(rdata[0], rdata[2..2 + rdata[1]], rdata[2 + rdata[1]..]))
  }

  /** Past n questions; the last type and class may lie beyond the message. */
  function SkipQuestions(msg: bytes, off: nat, n: nat): Result<nat>
    decreases n
  {
    if n == 0 then Ok(off)
    else match Skip(msg, off)
      case Err(e) => Err(e)
      case Ok(next) => SkipQuestions(msg, next + 4, n - 1)
  }

  function ReadRdata(msg: bytes, typ: uint16, start: nat, end: nat): Result<(nat, seq<Caa>)>
    requires start <= end
  {
    if end > |msg| then Err(TruncatedRdata)
    else if typ != TYPE_CAA then Ok((end, []))
    else match DecodeRecord(msg[start..end])
      case Err(e) => Err(e)
      case Ok(c) => Ok((end, [c]))
  }

  /** The answer at off: where it ends, and its CAA record if it is one. */
  function ReadAnswer(msg: bytes, off: nat): Result<(nat, seq<Caa>)> {
    match Skip(msg, off)
    case Err(e) => Err(e)
    case Ok(next) =>
      if next + 10 > |msg| then Err(TruncatedHeader)
      else ReadRdata(msg, Get16(msg, next), next + 10, next + 10 + Get16(msg, next + 8))
  }

  function Prepend(out: seq<Caa>, r: Result<seq<Caa>>): Result<seq<Caa>> {
    match r
    case Err(e) => Err(e)
    case Ok(cs) => Ok(out + cs)
  }

  function DecodeAnswers(msg: bytes, off: nat, n: nat): Result<seq<Caa>>
    decreases n
  {
    if n == 0 then Ok([])
    else match ReadAnswer(msg, off)
      case Err(e) => Err(e)
      case Ok((end, cs)) => Prepend(cs, DecodeAnswers(msg, end, n - 1))
  }

  function Decode(msg: bytes, id: uint16): Result<seq<Caa>> {
    if |msg| < 12 then Err(TooShort)
    else if Get16(msg, 0) != id then Err(IdMismatch)
    else
      var rcode := Get16(msg, 2) % 16;
      if rcode == 3 then Ok([])
      else if rcode != 0 then Err(Rcode(rcode))
      else match SkipQuestions(msg, 12, Get16(msg, 4))
        case Err(e) => Err(e)
        case Ok(off) => DecodeAnswers(msg, off, Get16(msg, 6))
  }

  // ----- The decoder, as written -----

  method SkipName(msg: bytes, offset: nat) returns (r: Result<nat>)
    ensures r == Skip(msg, offset)
  {
    var pos := offset;
    while true
      invariant Skip(msg, offset) == Skip(msg, pos)
      decreases |msg| - pos
    {
      if pos >= |msg| {
        return Err(NameOutOfBounds);
      }
      var length := msg[pos];
      if length == 0 {
        return Ok(pos + 1);
      } else if length >= 0xC0 {
        if pos + 1 >= |msg| {
          return Err(TruncatedPointer);
        }
        return Ok(pos + 2);
      }
      if pos + 1 + length > |msg| {
        return Err(LabelOutOfBounds);
      }
      pos := pos + 1 + length;
    }
  }

  method SkipQuestionSection(msg: bytes, qdcount: nat) returns (r: Result<nat>)
    ensures r == SkipQuestions(msg, 12, qdcount)
  {
    var off: nat := 12;
    for i := 0 to qdcount
      invariant SkipQuestions(msg, 12, qdcount) == SkipQuestions(msg, off, qdcount - i)
    {
      var next := SkipName(msg, off);
      if next.Err? {
        return Err(next.error);
      }
      off := next.value + 4;
    }
    return Ok(off);
  }

  /** The body of the answer loop: where the record at start ends, and its CAA record if it is one. */
  method DecodeOneAnswer(msg: bytes, start: nat) returns (r: Result<(nat, seq<Caa>)>)
    ensures r == ReadAnswer(msg, start)
  {
    var next := SkipName(msg, start);
    if next.Err? {
      return Err(next.error);
    }
    var off := next.value;
    if off + 10 > |msg| {
      return Err(TruncatedHeader);
    }
    var rtype, rdlen := Get16(msg, off), Get16(msg, off + 8);
    off := off + 10;
    if off + rdlen > |msg| {
      return Err(TruncatedRdata);
    }
    if rtype == TYPE_CAA {
      var c := DecodeRecord(msg[off..off + rdlen]);
      if c.Err? {
        return Err(c.error);
      }
      return Ok((off + rdlen, [c.value]));
    }
    return Ok((off + rdlen, []));
  }

  lemma PrependLaws(a: seq<Caa>, b: seq<Caa>, r: Result<seq<Caa>>)
    ensures Prepend([], r) == r
    ensures Prepend(a + b, r) == Prepend(a, Prepend(b, r))
  {
    if r.Ok? {
      assert [] + r.value == r.value;
      assert (a + b) + r.value == a + (b + r.value);
    }
  }

  method DecodeAnswerSection(msg: bytes, start: nat, ancount: nat) returns (r: Result<seq<Caa>>)
    ensures r == DecodeAnswers(msg, start, ancount)
  {
    var off: nat := start;
    var out: seq<Caa> := [];
    PrependLaws([], [], DecodeAnswers(msg, start, ancount));
    for i := 0 to ancount
      invariant DecodeAnswers(msg, start, ancount) == Prepend(out, DecodeAnswers(msg, off, ancount - i))
    {
      var one := DecodeOneAnswer(msg, off);
      if one.Err? {
        return Err(one.error);
      }
      var (end, found) := one.value;
      PrependLaws(out, found, DecodeAnswers(msg, end, ancount - i - 1));
      out := out + found;
      off := end;
    }
    assert out + [] == out;
    return Ok(out);
  }

  /** Total on every byte string: it terminates and indexes only inside msg. */
  method DecodeCAAResponse(msg: bytes, wantID: uint16) returns (r: Result<seq<Caa>>)
    ensures r == Decode(msg, wantID)
  {
    if |msg| < 12 {
      return Err(TooShort);
    }
    if Get16(msg, 0) != wantID {
      return Err(IdMismatch);
    }
    var rcode := Get16(msg, 2) % 16;
    if rcode != 0 {
      return if rcode == 3 then Ok([]) else Err(Rcode(rcode));
    }
    var body := SkipQuestionSection(msg, Get16(msg, 4));
    if body.Err? {
      return Err(body.error);
    }
    r := DecodeAnswerSection(msg, body.value, Get16(msg, 6));
  }

  // ----- What a response looks like on the wire -----

  datatype Tail = Root | Pointer(hi: byte, lo: byte)

  datatype Name = Name(labels: seq<bytes>, tail: Tail)

  datatype Question = Question(name: Name, qtype: uint16, qclass: uint16)

  datatype Answer =
    | CaaAnswer(owner: Name, class_: uint16, ttl: bytes, caa: Caa)
    | OtherAnswer(owner: Name, typ: uint16, class_: uint16, ttl: bytes, rdata: bytes)

  /** A 12-byte header, the two sections the decoder reads, and whatever follows. */
  datatype Response = Response(header: bytes, questions: seq<Question>, answers: seq<Answer>, rest: bytes)

  function NameOf(name: bytes): Name {
    Name(if name == [] then [] else Split(name, DOT), Root)
  }

  function Put16(n: uint16): bytes {
    [n / 256, n % 256]
  }

  /** Label lengths below the compression range; a well-behaved server keeps to 63. */
  predicate GoodName(n: Name) {
    && (forall i :: 0 <= i < |n.labels| ==> 1 <= |n.labels[i]| < 0xC0)
    && (n.tail.Pointer? ==> n.tail.hi >= 0xC0)
  }

  function Low8(n: nat): byte {
    n % 256
  }

  function Low16(n: nat): uint16 {
    n % 0x1_0000
  }

  function SerLabels(ls: seq<bytes>): bytes {
    if ls == [] then [] else [Low8(|ls[0]|)] + ls[0] + SerLabels(ls[1..])
  }

  function SerTail(t: Tail): bytes {
    match t
    case Root => [0]
    case Pointer(hi, lo) => [hi, lo]
  }

  function SerName(n: Name): bytes {
    SerLabels(n.labels) + SerTail(n.tail)
  }

  predicate GoodQuestion(q: Question) {
    GoodName(q.name)
  }

  function SerQuestion(q: Question): bytes {
    SerName(q.name) + (Put16(q.qtype) + Put16(q.qclass))
  }

  function TypeOf(a: Answer): uint16 {
    if a.CaaAnswer? then TYPE_CAA else a.typ
  }

  function Rdata(a: Answer): bytes {
    match a
    case CaaAnswer(_, _, _, caa) => [caa.flag, Low8(|caa.tag|)] + caa.tag + caa.value
    case OtherAnswer(_, _, _, _, rdata) => rdata
  }

  predicate GoodAnswer(a: Answer) {
    && GoodName(a.owner) && |a.ttl| == 4
    && (a.CaaAnswer? ==> |a.caa.tag| < 256)
    && (a.OtherAnswer? ==> a.typ != TYPE_CAA)
    && |Rdata(a)| < 0x1_0000
  }

  /** Type, class, TTL and data length: ten bytes. */
  function SerFixed(typ: uint16, class_: uint16, ttl: bytes, len: uint16): (s: bytes)
    ensures |s| == 6 + |ttl|
  {
    Put16(typ) + (Put16(class_) + (ttl + Put16(len)))
  }

  function FixedOf(a: Answer): (s: bytes)
    ensures |s| == 6 + |a.ttl|
  {
    SerFixed(TypeOf(a), a.class_, a.ttl, Low16(|Rdata(a)|))
  }

  function SerAnswer(a: Answer): bytes {
    SerName(a.owner) + (FixedOf(a) + Rdata(a))
  }

  predicate AllGoodQuestions(qs: seq<Question>) {
    forall i :: 0 <= i < |qs| ==> GoodQuestion(qs[i])
  }

  predicate AllGood(xs: seq<Answer>) {
    forall i :: 0 <= i < |xs| ==> GoodAnswer(xs[i])
  }

  function SerQuestions(qs: seq<Question>): bytes {
    if qs == [] then [] else SerQuestion(qs[0]) + SerQuestions(qs[1..])
  }

  function SerAnswers(xs: seq<Answer>): bytes {
    if xs == [] then [] else SerAnswer(xs[0]) + SerAnswers(xs[1..])
  }

  predicate GoodResponse(r: Response) {
    && |r.header| == 12 && Get16(r.header, 4) == |r.questions| && Get16(r.header, 6) == |r.answers|
    && AllGoodQuestions(r.questions) && AllGood(r.answers)
  }

  function Serialise(r: Response): bytes {
    r.header + (SerQuestions(r.questions) + (SerAnswers(r.answers) + r.rest))
  }

  function CaaOf(a: Answer): seq<Caa> {
    if a.CaaAnswer? then [a.caa] else []
  }

  function CaasOf(xs: seq<Answer>): seq<Caa> {
    if xs == [] then [] else CaaOf(xs[0]) + CaasOf(xs[1..])
  }

  // ----- Reading back what was written -----

  /** s stands in msg at off. */
  predicate At(msg: bytes, off: nat, s: bytes)
    decreases |s|
  {
    off <= |msg| && (s == [] || (off < |msg| && msg[off] == s[0] && At(msg, off + 1, s[1..])))
  }

  lemma {:induction false} AtConcat(msg: bytes, off: nat, a: bytes, b: bytes)
    ensures At(msg, off, a + b) <==> At(msg, off, a) && At(msg, off + |a|, b)
    decreases |a|
  {
    if a == [] {
      assert a + b == b;
    } else {
      assert (a + b)[1..] == a[1..] + b;
      AtConcat(msg, off + 1, a[1..], b);
    }
  }

  lemma AtConcat3(msg: bytes, off: nat, a: bytes, b: bytes, c: bytes)
    ensures At(msg, off, a + (b + c)) <==> At(msg, off, a) && At(msg, off + |a|, b) && At(msg, off + |a| + |b|, c)
  {
    AtConcat(msg, off, a, b + c);
    AtConcat(msg, off + |a|, b, c);
  }

  lemma {:induction false} AtSlice(msg: bytes, off: nat, s: bytes)
    ensures At(msg, off, s) <==> off + |s| <= |msg| && msg[off..off + |s|] == s
    decreases |s|
  {
    if s != [] {
      AtSlice(msg, off + 1, s[1..]);
      if off + |s| <= |msg| {
        assert msg[off..off + |s|] == [msg[off]] + msg[off + 1..off + |s|];
        assert s == [s[0]] + s[1..];
      }
    }
  }

  lemma AtPut16(msg: bytes, off: nat, n: uint16)
    ensures At(msg, off, Put16(n)) <==> off + 2 <= |msg| && Get16(msg, off) == n
  {
    AtSlice(msg, off, Put16(n));
    if off + 2 <= |msg| {
      assert msg[off..off + 2] == [msg[off], msg[off + 1]];
    }
  }

  lemma {:induction false} SerLabelsConcat(a: seq<bytes>, b: seq<bytes>)
    ensures SerLabels(a + b) == SerLabels(a) + SerLabels(b)
  {
    if a == [] {
      assert a + b == b;
    } else {
      assert (a + b)[1..] == a[1..] + b;
      SerLabelsConcat(a[1..], b);
    }
  }

  lemma SerLabelsGrow(ls: seq<bytes>, i: nat)
    requires i < |ls| && |ls[i]| < 256
    ensures SerLabels(ls[..i + 1]) == SerLabels(ls[..i]) + ([|ls[i]|] + ls[i])
  {
    PrefixStep(ls, i);
    SerLabelsConcat(ls[..i], [ls[i]]);
    assert SerLabels([ls[i]]) == [|ls[i]|] + ls[i] by { var none: seq<bytes> := []; assert [ls[i]][1..] == none; }
  }

  /** skipName lands just past a name, plain or compressed. */
  lemma {:induction false} SkipsName(msg: bytes, off: nat, n: Name)
    requires GoodName(n) && At(msg, off, SerName(n))
    ensures Skip(msg, off) == Ok(off + |SerName(n)|)
    decreases |n.labels|
  {
    if n.labels != [] {
      var l, rest := n.labels[0], Name(n.labels[1..], n.tail);
      assert SerName(n) == ([|l|] + l) + SerName(rest);
      AtConcat(msg, off, [|l|] + l, SerName(rest));
      SkipsName(msg, off + 1 + |l|, rest);
    }
  }

  lemma SerNameCons(l: bytes, rest: Name)
    requires 1 <= |l| < 0xC0 && GoodName(rest)
    ensures GoodName(Name([l] + rest.labels, rest.tail))
    ensures SerName(Name([l] + rest.labels, rest.tail)) == ([|l|] + l) + SerName(rest)
  {
    assert ([l] + rest.labels)[1..] == rest.labels;
  }

  lemma EndsInRoot(msg: bytes, off: nat)
    requires off < |msg| && msg[off] == 0
    ensures var n := Name([], Root); GoodName(n) && At(msg, off, SerName(n)) && |SerName(n)| == 1
  {
    assert msg[off..off + 1] == [0] == SerName(Name([], Root));
    AtSlice(msg, off, [0]);
  }

  lemma EndsInPointer(msg: bytes, off: nat)
    requires off + 1 < |msg| && msg[off] >= 0xC0
    ensures var n := Name([], Pointer(msg[off], msg[off + 1]));
            GoodName(n) && At(msg, off, SerName(n)) && |SerName(n)| == 2
  {
    assert msg[off..off + 2] == [msg[off], msg[off + 1]] == SerName(Name([], Pointer(msg[off], msg[off + 1])));
    AtSlice(msg, off, [msg[off], msg[off + 1]]);
  }

  lemma LabelBefore(msg: bytes, off: nat, rest: Name) returns (n: Name)
    requires off < |msg| && 1 <= msg[off] < 0xC0 && off + 1 + msg[off] <= |msg|
    requires GoodName(rest) && At(msg, off + 1 + msg[off], SerName(rest))
    ensures GoodName(n) && At(msg, off, SerName(n)) && |SerName(n)| == 1 + msg[off] + |SerName(rest)|
  {
    hide At, SerName, GoodName;
    var l := msg[off + 1..off + 1 + msg[off]];
    n := Name([l] + rest.labels, rest.tail);
    SerNameCons(l, rest);
    assert msg[off..off + 1 + |l|] == [|l|] + l;
    AtSlice(msg, off, [|l|] + l);
    AtConcat(msg, off, [|l|] + l, SerName(rest));
  }

  /** Whatever skipName accepts is a serialised name. */
  lemma {:induction false} SkippedIsName(msg: bytes, off: nat) returns (n: Name)
    requires Skip(msg, off).Ok?
    ensures GoodName(n) && At(msg, off, SerName(n)) && Skip(msg, off).value == off + |SerName(n)|
    decreases |msg| - off
  {
    hide At, SerName, GoodName;
    if msg[off] == 0 {
      n := Name([], Root);
      EndsInRoot(msg, off);
    } else if msg[off] >= 0xC0 {
      n := Name([], Pointer(msg[off], msg[off + 1]));
      EndsInPointer(msg, off);
    } else {
      var rest := SkippedIsName(msg, off + 1 + msg[off]);
      n := LabelBefore(msg, off, rest);
    }
  }

  predicate Encodable(name: bytes) {
    name == [] || forall l :: l in Split(name, DOT) ==> 1 <= |l| <= 63
  }

  /** The encoded form of any encodable name is skipped exactly, wherever it stands. */
  lemma SkipsEncodedName(msg: bytes, off: nat, name: bytes)
    requires Encodable(name)
    requires At(msg, off, SerName(NameOf(name)))
    ensures Skip(msg, off) == Ok(off + |SerName(NameOf(name))|)
  {
    SkipsName(msg, off, NameOf(name));
  }

  function OwnerEnd(off: nat, a: Answer): nat {
    off + |SerName(a.owner)|
  }

  /** One answer at off, part by part. */
  lemma AnswerParts(msg: bytes, off: nat, a: Answer)
    requires GoodAnswer(a)
    ensures At(msg, off, SerAnswer(a)) <==>
            && At(msg, off, SerName(a.owner)) && At(msg, OwnerEnd(off, a), FixedOf(a))
            && At(msg, OwnerEnd(off, a) + 10, Rdata(a))
    ensures off + |SerAnswer(a)| == OwnerEnd(off, a) + 10 + |Rdata(a)|
  {
    AtConcat3(msg, off, SerName(a.owner), FixedOf(a), Rdata(a));
  }

  lemma AtFixed(msg: bytes, off: nat, typ: uint16, class_: uint16, ttl: bytes, len: uint16)
    requires |ttl| == 4
    ensures At(msg, off, SerFixed(typ, class_, ttl, len)) <==>
            && off + 10 <= |msg| && Get16(msg, off) == typ && Get16(msg, off + 2) == class_
            && msg[off + 4..off + 8] == ttl && Get16(msg, off + 8) == len
  {
    AtConcat(msg, off, Put16(typ), Put16(class_) + (ttl + Put16(len)));
    AtConcat(msg, off + 2, Put16(class_), ttl + Put16(len));
    AtConcat(msg, off + 4, ttl, Put16(len));
    AtSlice(msg, off + 4, ttl);
    AtPut16(msg, off, typ);
    AtPut16(msg, off + 2, class_);
    AtPut16(msg, off + 8, len);
  }

  lemma FixedFields(msg: bytes, off: nat, a: Answer)
    requires GoodAnswer(a) && At(msg, off, FixedOf(a))
    ensures off + 10 <= |msg| && Get16(msg, off) == TypeOf(a) && Get16(msg, off + 8) == |Rdata(a)|
  {
    AtFixed(msg, off, TypeOf(a), a.class_, a.ttl, |Rdata(a)|);
  }

  lemma RecordRoundTrip(a: Answer)
    requires GoodAnswer(a) && a.CaaAnswer?
    ensures DecodeRecord(Rdata(a)) == Ok(a.caa)
  {
    var rdata, n := Rdata(a), |a.caa.tag|;
    assert rdata[2..2 + n] == a.caa.tag && rdata[2 + n..] == a.caa.value;
  }

  lemma ReadsRdata(msg: bytes, start: nat, a: Answer)
    requires GoodAnswer(a) && At(msg, start, Rdata(a))
    ensures ReadRdata(msg, TypeOf(a), start, start + |Rdata(a)|) == Ok((start + |Rdata(a)|, CaaOf(a)))
  {
    AtSlice(msg, start, Rdata(a));
    if a.CaaAnswer? {
      RecordRoundTrip(a);
    }
  }

  /** The decoder reads one serialised answer and ends just past it. */
  lemma ReadsAnswer(msg: bytes, off: nat, a: Answer)
    requires GoodAnswer(a) && At(msg, off, SerAnswer(a))
    ensures ReadAnswer(msg, off) == Ok((off + |SerAnswer(a)|, CaaOf(a)))
  {
    hide At, Rdata, SerName, FixedOf, SerAnswer, Skip, ReadRdata, TypeOf;
    var next := OwnerEnd(off, a);
    AnswerParts(msg, off, a);
    assert Skip(msg, off) == Ok(next) by { SkipsName(msg, off, a.owner); }
    FixedFields(msg, next, a);
    ReadsRdata(msg, next + 10, a);
  }

  lemma {:induction false} DecodesAnswers(msg: bytes, off: nat, xs: seq<Answer>)
    requires AllGood(xs)
    requires At(msg, off, SerAnswers(xs))
    ensures DecodeAnswers(msg, off, |xs|) == Ok(CaasOf(xs))
    decreases |xs|
  {
    hide At, SerAnswer, ReadAnswer, CaaOf;
    if xs != [] {
      AtConcat(msg, off, SerAnswer(xs[0]), SerAnswers(xs[1..]));
      DecodesAnswers(msg, off + |SerAnswer(xs[0])|, xs[1..]);
      ReadsAnswer(msg, off, xs[0]);
    }
  }

  lemma {:induction false} SkipsQuestions(msg: bytes, off: nat, qs: seq<Question>)
    requires AllGoodQuestions(qs)
    requires At(msg, off, SerQuestions(qs))
    ensures SkipQuestions(msg, off, |qs|) == Ok(off + |SerQuestions(qs)|)
    decreases |qs|
  {
    hide At, SerName, Skip, GoodName;
    if qs != [] {
      var q := qs[0];
      AtConcat(msg, off, SerQuestion(q), SerQuestions(qs[1..]));
      AtConcat(msg, off, SerName(q.name), Put16(q.qtype) + Put16(q.qclass));
      SkipsName(msg, off, q.name);
      SkipsQuestions(msg, off + |SerQuestion(q)|, qs[1..]);
    }
  }

  lemma AtConcat4(msg: bytes, a: bytes, b: bytes, c: bytes, d: bytes)
    ensures At(msg, 0, a + (b + (c + d))) <==>
            At(msg, 0, a) && At(msg, |a|, b) && At(msg, |a| + |b|, c) && At(msg, |a| + |b| + |c|, d)
  {
    AtConcat(msg, 0, a, b + (c + d));
    AtConcat3(msg, |a|, b, c, d);
  }

  lemma AtWhole(msg: bytes, s: bytes)
    requires |msg| == |s|
    ensures At(msg, 0, s) <==> msg == s
  {
    AtSlice(msg, 0, s);
    assert msg[0..|s|] == msg;
  }

  /** What RFC 8659's climb needs from a response: its CAA records, none for NXDOMAIN, else an error. */
  function Expected(r: Response): Result<seq<Caa>>
    requires |r.header| == 12
  {
    var rcode := Get16(r.header, 2) % 16;
    if rcode == 0 then Ok(CaasOf(r.answers)) else if rcode == 3 then Ok([]) else Err(Rcode(rcode))
  }

  lemma HeaderFields(msg: bytes, header: bytes)
    requires |header| == 12 <= |msg| && msg[..12] == header
    ensures Get16(msg, 0) == Get16(header, 0) && Get16(msg, 2) == Get16(header, 2)
    ensures Get16(msg, 4) == Get16(header, 4) && Get16(msg, 6) == Get16(header, 6)
  {
    assert forall i :: 0 <= i < 12 ==> msg[i] == header[i];
  }

  lemma DecodesParts(msg: bytes, r: Response)
    requires GoodResponse(r) && |msg| >= 12 && msg[..12] == r.header
    requires At(msg, 12, SerQuestions(r.questions)) && At(msg, 12 + |SerQuestions(r.questions)|, SerAnswers(r.answers))
    ensures Decode(msg, Get16(r.header, 0)) == Expected(r)
  {
    hide SerQuestions, SerAnswers, DecodeAnswers, SkipQuestions, At, CaasOf, AllGood, AllGoodQuestions, Get16;
    hide SerQuestion, SerAnswer, GoodAnswer, GoodQuestion, Skip, Prepend;
    HeaderFields(msg, r.header);
    SkipsQuestions(msg, 12, r.questions);
    DecodesAnswers(msg, 12 + |SerQuestions(r.questions)|, r.answers);
  }

  /** The decoder inverts serialisation: exactly the CAA records, in order, whatever surrounds them. */
  lemma DecodeInvertsSerialise(msg: bytes, r: Response)
    requires GoodResponse(r) && msg == Serialise(r)
    ensures Decode(msg, Get16(r.header, 0)) == Expected(r)
  {
    hide SerQuestions, SerAnswers, Decode, Expected, At, AllGood, AllGoodQuestions;
    AtWhole(msg, Serialise(r));
    AtConcat4(msg, r.header, SerQuestions(r.questions), SerAnswers(r.answers), r.rest);
    DecodesParts(msg, r);
  }

  // ----- Nothing else is accepted -----

  lemma DecodedRecord(rdata: bytes) returns (c: Caa)
    requires DecodeRecord(rdata).Ok?
    ensures c == DecodeRecord(rdata).value && |c.tag| < 256
    ensures rdata == [c.flag, |c.tag|] + c.tag + c.value
  {
    c := DecodeRecord(rdata).value;
    assert rdata == rdata[..2] + rdata[2..2 + rdata[1]] + rdata[2 + rdata[1]..];
    assert rdata[..2] == [rdata[0], rdata[1]];
  }

  lemma MakeAnswer(owner: Name, typ: uint16, class_: uint16, ttl: bytes, rdata: bytes) returns (a: Answer)
    requires GoodName(owner) && |ttl| == 4 && |rdata| < 0x1_0000
    requires typ == TYPE_CAA ==> DecodeRecord(rdata).Ok?
    ensures GoodAnswer(a) && a.owner == owner && a.class_ == class_ && a.ttl == ttl
    ensures TypeOf(a) == typ && Rdata(a) == rdata
  {
    if typ == TYPE_CAA {
      var c := DecodedRecord(rdata);
      a := CaaAnswer(owner, class_, ttl, c);
    } else {
      a := OtherAnswer(owner, typ, class_, ttl, rdata);
    }
  }

  /** An answer stands at off when its fields read back one by one. */
  lemma AnswerStands(msg: bytes, off: nat, next: nat, a: Answer)
    requires GoodAnswer(a) && At(msg, off, SerName(a.owner)) && next == OwnerEnd(off, a)
    requires next + 10 + |Rdata(a)| <= |msg|
    requires Get16(msg, next) == TypeOf(a) && Get16(msg, next + 2) == a.class_
    requires msg[next + 4..next + 8] == a.ttl && Get16(msg, next + 8) == |Rdata(a)|
    requires msg[next + 10..next + 10 + |Rdata(a)|] == Rdata(a)
    ensures At(msg, off, SerAnswer(a))
  {
    hide At, SerAnswer, Rdata, SerName, TypeOf;
    AtFixed(msg, next, TypeOf(a), a.class_, a.ttl, |Rdata(a)|);
    AtSlice(msg, next + 10, Rdata(a));
    AnswerParts(msg, off, a);
  }

  lemma DecodedAnswer(msg: bytes, off: nat) returns (a: Answer)
    requires ReadAnswer(msg, off).Ok?
    ensures GoodAnswer(a) && At(msg, off, SerAnswer(a))
  {
    hide At, SerAnswer, SerName, GoodName, GoodAnswer, Rdata, TypeOf, Get16, Skip, DecodeRecord, FixedOf;
    var owner := SkippedIsName(msg, off);
    var next := Skip(msg, off).value;
    var len := Get16(msg, next + 8);
    a := MakeAnswer(owner, Get16(msg, next), Get16(msg, next + 2), msg[next + 4..next + 8],
      msg[next + 10..next + 10 + len]);
    AnswerStands(msg, off, next, a);
  }

  lemma SerAnswersCons(a: Answer, rest: seq<Answer>)
    ensures SerAnswers([a] + rest) == SerAnswer(a) + SerAnswers(rest)
  {
    assert ([a] + rest)[1..] == rest;
  }

  lemma ConsAnswers(msg: bytes, off: nat, a: Answer, rest: seq<Answer>)
    requires GoodAnswer(a) && At(msg, off, SerAnswer(a))
    requires AllGood(rest) && At(msg, off + |SerAnswer(a)|, SerAnswers(rest))
    ensures AllGood([a] + rest) && At(msg, off, SerAnswers([a] + rest))
  {
    SerAnswersCons(a, rest);
    AtConcat(msg, off, SerAnswer(a), SerAnswers(rest));
  }

  /** The next answer the decoder reads, and that it ends where the decoder says. */
  lemma NextAnswer(msg: bytes, off: nat) returns (a: Answer)
    requires ReadAnswer(msg, off).Ok?
    ensures GoodAnswer(a) && At(msg, off, SerAnswer(a))
    ensures ReadAnswer(msg, off).value.0 == off + |SerAnswer(a)| <= |msg|
  {
    hide SerAnswer, ReadAnswer, GoodAnswer;
    a := DecodedAnswer(msg, off);
    ReadsAnswer(msg, off, a);
    AtSlice(msg, off, SerAnswer(a));
  }

  lemma {:induction false} DecodedAnswers(msg: bytes, off: nat, n: nat) returns (xs: seq<Answer>)
    requires DecodeAnswers(msg, off, n).Ok? && off <= |msg|
    ensures |xs| == n && AllGood(xs) && At(msg, off, SerAnswers(xs))
    decreases n
  {
    hide SerAnswer, GoodAnswer, ReadAnswer;
    if n == 0 {
      xs := [];
    } else {
      var a := NextAnswer(msg, off);
      var rest := DecodedAnswers(msg, ReadAnswer(msg, off).value.0, n - 1);
      xs := [a] + rest;
      ConsAnswers(msg, off, a, rest);
    }
  }

  /** The next question the decoder skips, provided it lies inside the message. */
  lemma NextQuestion(msg: bytes, off: nat) returns (q: Question)
    requires Skip(msg, off).Ok? && Skip(msg, off).value + 4 <= |msg|
    ensures GoodQuestion(q) && At(msg, off, SerQuestion(q))
    ensures Skip(msg, off).value + 4 == off + |SerQuestion(q)|
  {
    var name := SkippedIsName(msg, off);
    var next := Skip(msg, off).value;
    q := Question(name, Get16(msg, next), Get16(msg, next + 2));
    AtPut16(msg, next, q.qtype);
    AtPut16(msg, next + 2, q.qclass);
    AtConcat3(msg, off, SerName(name), Put16(q.qtype), Put16(q.qclass));
  }

  lemma SerQuestionsCons(q: Question, rest: seq<Question>)
    ensures SerQuestions([q] + rest) == SerQuestion(q) + SerQuestions(rest)
  {
    assert ([q] + rest)[1..] == rest;
  }

  lemma ConsQuestions(msg: bytes, off: nat, q: Question, rest: seq<Question>)
    requires GoodQuestion(q) && At(msg, off, SerQuestion(q))
    requires AllGoodQuestions(rest) && At(msg, off + |SerQuestion(q)|, SerQuestions(rest))
    ensures AllGoodQuestions([q] + rest) && At(msg, off, SerQuestions([q] + rest))
    ensures |SerQuestions([q] + rest)| == |SerQuestion(q)| + |SerQuestions(rest)|
  {
    SerQuestionsCons(q, rest);
    AtConcat(msg, off, SerQuestion(q), SerQuestions(rest));
  }

  lemma {:induction false} QuestionsAdvance(msg: bytes, off: nat, n: nat)
    requires SkipQuestions(msg, off, n).Ok?
    ensures off <= SkipQuestions(msg, off, n).value
    decreases n
  {
    if n > 0 {
      QuestionsAdvance(msg, Skip(msg, off).value + 4, n - 1);
    }
  }

  lemma {:induction false} SkippedQuestions(msg: bytes, off: nat, n: nat) returns (qs: seq<Question>)
    requires SkipQuestions(msg, off, n).Ok? && SkipQuestions(msg, off, n).value <= |msg|
    ensures |qs| == n && AllGoodQuestions(qs) && At(msg, off, SerQuestions(qs))
    ensures SkipQuestions(msg, off, n).value == off + |SerQuestions(qs)|
    decreases n
  {
    if n == 0 {
      qs := [];
    } else {
      var next := Skip(msg, off).value + 4;
      QuestionsAdvance(msg, next, n - 1);
      var q := NextQuestion(msg, off);
      var rest := SkippedQuestions(msg, next, n - 1);
      qs := [q] + rest;
      ConsQuestions(msg, off, q, rest);
    }
  }

  /** The questions end inside the message, which a caller can check by walking them. */
  predicate QuestionsFit(msg: bytes) {
    |msg| >= 12 && SkipQuestions(msg, 12, Get16(msg, 4)).Ok? && SkipQuestions(msg, 12, Get16(msg, 4)).value <= |msg|
  }

  lemma Reassembled(msg: bytes, a: bytes, b: bytes, c: bytes, d: bytes)
    requires At(msg, 0, a) && At(msg, |a|, b) && At(msg, |a| + |b|, c) && At(msg, |a| + |b| + |c|, d)
    requires |msg| == |a| + |b| + |c| + |d|
    ensures msg == a + (b + (c + d))
  {
    AtConcat4(msg, a, b, c, d);
    AtWhole(msg, a + (b + (c + d)));
  }

  /** Every message decoded without an error code is a serialised response, provided its questions fit. */
  lemma DecodedIsSerialised(msg: bytes, id: uint16) returns (r: Response)
    requires Decode(msg, id).Ok? && Get16(msg, 2) % 16 == 0 && QuestionsFit(msg)
    ensures GoodResponse(r) && Serialise(r) == msg && Get16(r.header, 0) == id
    ensures Decode(msg, id) == Ok(CaasOf(r.answers))
  {
    hide SerQuestions, SerAnswers, DecodeAnswers, SkipQuestions, At, AllGood, AllGoodQuestions;
    var qs := SkippedQuestions(msg, 12, Get16(msg, 4));
    var mid := 12 + |SerQuestions(qs)|;
    var xs := DecodedAnswers(msg, mid, Get16(msg, 6));
    var end := mid + |SerAnswers(xs)|;
    assert end <= |msg| by { AtSlice(msg, mid, SerAnswers(xs)); }
    var header, rest := msg[..12], msg[end..];
    r := Response(header, qs, xs, rest);
    assert At(msg, 0, header) by { AtSlice(msg, 0, header); }
    assert At(msg, end, rest) by { AtSlice(msg, end, rest); }
    Reassembled(msg, header, SerQuestions(qs), SerAnswers(xs), rest);
    DecodesParts(msg, r);
  }

  /** The questions of a serialised response fit. */
  lemma SerialisedFits(r: Response)
    requires GoodResponse(r)
    ensures QuestionsFit(Serialise(r))
  {
    hide SerQuestions, SerAnswers, At, SkipQuestions, AllGood, AllGoodQuestions;
    var msg := Serialise(r);
    AtWhole(msg, msg);
    AtConcat4(msg, r.header, SerQuestions(r.questions), SerAnswers(r.answers), r.rest);
    HeaderFields(msg, r.header);
    SkipsQuestions(msg, 12, r.questions);
    AtSlice(msg, 12, SerQuestions(r.questions));
  }

  /** A message decoded without an error code is a serialised response exactly if its questions fit. */
  lemma AcceptedIffFits(msg: bytes, id: uint16)
    requires Decode(msg, id).Ok? && Get16(msg, 2) % 16 == 0
    ensures QuestionsFit(msg) <==> exists r :: GoodResponse(r) && Serialise(r) == msg
  {
    hide GoodResponse, Serialise, QuestionsFit, Decode;
    if QuestionsFit(msg) {
      var r := DecodedIsSerialised(msg, id);
    }
    if r :| GoodResponse(r) && Serialise(r) == msg {
      SerialisedFits(r);
    }
  }

  /** One whose questions do not: a question cut off after its name is accepted when no answers follow. */
  lemma CutQuestionIsAccepted()
    ensures var msg: bytes := [0, 7, 0, 0, 0, 1, 0, 0, 0, 0, 0, 0, 0];
            Decode(msg, 7) == Ok([]) && !exists r :: GoodResponse(r) && Serialise(r) == msg
  {
    var msg: bytes := [0, 7, 0, 0, 0, 1, 0, 0, 0, 0, 0, 0, 0];
    assert Get16(msg, 4) == 1 && Skip(msg, 12) == Ok(13);
    assert SkipQuestions(msg, 17, 0) == Ok(17);
    assert SkipQuestions(msg, 12, 1) == Ok(17);
    hide Decode, Skip, SkipQuestions, Serialise;
    AcceptedIffFits(msg, 7);
  }

  /** A message with answers that decodes always has questions that fit. */
  lemma AnswersNeedRoom(msg: bytes, id: uint16)
    requires Decode(msg, id).Ok? && Get16(msg, 2) % 16 == 0 && Get16(msg, 6) > 0
    ensures QuestionsFit(msg)
  {
    var off := SkipQuestions(msg, 12, Get16(msg, 4)).value;
    assert Skip(msg, off).Ok?;
  }

  // ----- The query -----

  method EncodeName(name: bytes) returns (r: Result<bytes>)
    ensures r.Ok? <==> Encodable(name)
    ensures r.Ok? ==> r.value == SerName(NameOf(name))
  {
    var buf: bytes := [];
    if name != [] {
      var labels := Split(name, DOT);
      for i := 0 to |labels|
        invariant forall j :: 0 <= j < i ==> 1 <= |labels[j]| <= 63
        invariant buf == SerLabels(labels[..i])
      {
        if |labels[i]| == 0 || |labels[i]| > 63 {
          return Err(InvalidLabel);
        }
        SerLabelsGrow(labels, i);
        buf := buf + ([|labels[i]|] + labels[i]);
      }
      assert labels[..|labels|] == labels;
    }
    return Ok(buf + [0]);
  }

  /** Recursion desired, one question, no records. */
  function QueryHeader(id: uint16): bytes {
    [id / 256, id % 256, 1, 0, 0, 1, 0, 0, 0, 0, 0, 0]
  }

  /** One CAA IN question. */
  function Query(name: bytes, id: uint16): (r: Response)
    requires Encodable(name)
    ensures GoodResponse(r) && Get16(r.header, 0) == id && Get16(r.header, 2) == 0x0100
  {
    Response(QueryHeader(id), [Question(NameOf(name), TYPE_CAA, CLASS_IN)], [], [])
  }

  lemma QuerySerialised(name: bytes, id: uint16)
    requires Encodable(name)
    ensures Serialise(Query(name, id)) == QueryHeader(id) + SerQuestion(Question(NameOf(name), TYPE_CAA, CLASS_IN))
  {
    var q := Question(NameOf(name), TYPE_CAA, CLASS_IN);
    assert SerQuestions([q]) == SerQuestion(q) by { assert |[q][1..]| == 0; }
    var r := Query(name, id);
    assert SerQuestions(r.questions) + (SerAnswers(r.answers) + r.rest) == SerQuestion(q);
  }

  method EncodeCAAQuery(name: bytes, id: uint16) returns (r: Result<bytes>)
    ensures r.Ok? <==> Encodable(name)
    ensures r.Ok? ==> r.value == Serialise(Query(name, id))
  {
    var header := QueryHeader(id);
    var qname := EncodeName(name);
    if qname.Err? {
      return Err(qname.error);
    }
    r := Ok(header + (qname.value + (Put16(TYPE_CAA) + Put16(CLASS_IN))));
    QuerySerialised(name, id);
  }
}
