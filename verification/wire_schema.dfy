/** The wire form against node/raft_internal.proto: a message is a list of numbered fields, each with
    a key and a payload as Protocol Buffers lays them out. */
module WireSchema {
  import opened ByteOrder
  import opened NumberCodec
  import opened Varints
  import opened Wire

  // ---------------------------------------------------------------- base-128 varints

  /** The number that seven-bit groups stand for, lowest first. */
  function Base128(b: Bytes): nat { if b == [] then 0 else b[0] % 128 + 128 * Base128(b[1..]) }

  /** The continuation bit is set on all bytes but the last, and no group is wasted. */
  lemma {:induction false} VarintForm(v: nat)
    ensures var b := Varint(v);
            && b != [] && Base128(b) == v
            && (forall k | 0 <= k < |b| :: b[k] >= 128 <==> k < |b| - 1)
            && (|b| > 1 ==> b[|b| - 1] > 0)
  {
    if v >= 128 {
      VarintForm(v / 128);
      var b, c := Varint(v), Varint(v / 128);
      assert b[1..] == c && b[0] == v % 128 + 128;
      forall k | 0 <= k < |b| ensures b[k] >= 128 <==> k < |b| - 1 {
        if k > 0 { assert b[k] == c[k - 1]; }
      }
      assert b[|b| - 1] == c[|c| - 1];
    } else {
      assert Varint(v)[1..] == [];
    }
  }

  /** The first byte without a continuation bit is number k. */
  predicate StopsAt(b: Bytes, k: nat) { k < |b| && b[k] < 128 && forall l | 0 <= l < k :: b[l] >= 128 }

  lemma Shifted(acc: nat, low: nat, rest: nat, j: nat)
    ensures acc + low * Pow2(7 * j) + rest * Pow2(7 * (j + 1)) == acc + (low + 128 * rest) * Pow2(7 * j)
  {
    ShiftBySeven(128, 7 * j);
    assert Pow2(7 * (j + 1)) == 128 * Pow2(7 * j);
    assert (low + 128 * rest) * Pow2(7 * j) == low * Pow2(7 * j) + rest * (128 * Pow2(7 * j));
  }

  lemma {:induction false} ReadsGroups(b: Bytes, j: nat, acc: nat, k: nat)
    requires StopsAt(b, k)
    ensures ReadVarint(b, 7 * j, acc) == if j + k < 10 then Int(acc + Base128(b[..k + 1]) * Pow2(7 * j), b[k + 1..]) else Bad
    decreases k
  {
    hide Pow2;
    var raw := acc + b[0] % 128 * Pow2(7 * j);
    if k == 0 {
      assert b[..1][1..] == [];
    } else {
      var c := b[1..];
      assert StopsAt(c, k - 1);
      assert b[..k + 1][1..] == c[..k] && c[k..] == b[k + 1..];
      ReadsGroups(c, j + 1, raw, k - 1);
      Shifted(acc, b[0] % 128, Base128(c[..k]), j);
    }
  }

  lemma {:induction false} NeverStops(b: Bytes, j: nat, acc: nat)
    requires forall l | 0 <= l < |b| :: b[l] >= 128
    ensures ReadVarint(b, 7 * j, acc) == Bad
    decreases |b|
  {
    if b != [] { NeverStops(b[1..], j + 1, acc + b[0] % 128 * Pow2(7 * j)); }
  }

  /** A varint is read up to its first byte without a continuation bit, at most ten bytes, and stands
      for its seven-bit groups; anything else is an error. */
  lemma VarintReads(b: Bytes)
    ensures forall k: nat | k < 10 && StopsAt(b, k) :: ReadVarint(b, 0, 0) == Int(Base128(b[..k + 1]), b[k + 1..])
    ensures ReadVarint(b, 0, 0).Int? <==> exists k: nat :: k < 10 && StopsAt(b, k)
  {
    hide ReadVarint;
    forall k: nat | StopsAt(b, k)
      ensures ReadVarint(b, 0, 0) == if k < 10 then Int(Base128(b[..k + 1]), b[k + 1..]) else Bad
    {
      ReadsGroups(b, 0, 0, k);
      assert Pow2(0) == 1;
    }
    if forall l | 0 <= l < |b| :: b[l] >= 128 {
      NeverStops(b, 0, 0);
    } else {
      var k := FirstStop(b);
    }
  }

  lemma {:induction false} FirstStop(b: Bytes) returns (k: nat)
    requires exists l :: 0 <= l < |b| && b[l] < 128
    ensures StopsAt(b, k)
  {
    if b[0] < 128 {
      k := 0;
    } else {
      var l :| 0 <= l < |b| && b[l] < 128;
      assert b[1..][l - 1] < 128;
      k := FirstStop(b[1..]);
      forall i | 0 <= i < k + 1 ensures b[i] >= 128 { if i > 0 { assert b[1..][i - 1] >= 128; } }
      k := k + 1;
    }
  }

  // ---------------------------------------------------------------- fields

  /** A number (wire type 0) or a string of bytes (wire type 2) under a field number. */
  datatype Field = Num(num: nat, v: UInt64) | Len(num: nat, payload: Bytes)

  function FieldBytes(f: Field): Bytes {
    match f
    case Num(num, v) => Varint(8 * num) + Varint(v)
    case Len(num, payload) => Varint(8 * num + 2) + Varint(|payload|) + payload
  }

  function Serialize(fs: seq<Field>): Bytes { if fs == [] then [] else FieldBytes(fs[0]) + Serialize(fs[1..]) }

  lemma {:induction false} SerializeJoins(a: seq<Field>, b: seq<Field>)
    ensures Serialize(a + b) == Serialize(a) + Serialize(b)
  {
    if a == [] {
      assert a + b == b;
    } else {
      assert (a + b)[1..] == a[1..] + b;
      SerializeJoins(a[1..], b);
    }
  }

  /** Fields with the default value are left out. */
  function Optional(f: Field): seq<Field> {
    if f == Num(f.num, 0) || f == Len(f.num, []) then [] else [f]
  }

  function HeaderFields(h: Header): seq<Field> {
    Optional(Num(1, h.id)) + Optional(Num(2, Extended(h.dataType))) + Optional(Num(3, Extended(h.timestamp)))
  }

  function RequestFields(r: Request): seq<Field> {
    [Len(1, Serialize(HeaderFields(r.header)))] + Optional(Len(2, r.data))
  }

  function RepeatedRequests(rs: seq<Request>): seq<Field> {
    seq(|rs|, k requires 0 <= k < |rs| => Len(2, Serialize(RequestFields(rs[k]))))
  }

  function BatchFields(m: Batch): seq<Field> {
    Optional(Num(1, Extended(m.reqNum))) + RepeatedRequests(m.reqs) + Optional(Num(3, Extended(m.timestamp))) +
    Optional(Num(4, Extended(m.source))) + Optional(Num(5, m.reqId)) + Optional(Num(6, m.origTerm)) +
    Optional(Num(7, m.origIndex)) + Optional(Len(8, m.origCluster))
  }

  lemma SmallKey(key: Byte)
    requires key < 128
    ensures Varint(key) == [key]
  {
  }

  lemma NumberIsField(num: nat, v: UInt64)
    requires num < 16
    ensures Number(8 * num, v) == Serialize(Optional(Num(num, v)))
  {
    hide Varint;
    SmallKey(8 * num);
    assert [FieldBytes(Num(num, v))] + [] == [FieldBytes(Num(num, v))];
    assert [Num(num, v)][1..] == [];
  }

  lemma DelimitedIsField(num: nat, payload: Bytes)
    requires num < 15
    ensures Delimited(8 * num + 2, payload) == Serialize([Len(num, payload)])
    ensures OptionalData(8 * num + 2, payload) == Serialize(Optional(Len(num, payload)))
  {
    hide Varint;
    SmallKey(8 * num + 2);
    assert [Len(num, payload)][1..] == [];
  }

  /** The encoding of a header is its fields in the order of their numbers. */
  lemma HeaderSchema(h: Header)
    ensures HeaderBytes(h) == Serialize(HeaderFields(h))
  {
    hide Number, Serialize, Optional;
    NumberIsField(1, h.id);
    NumberIsField(2, Extended(h.dataType));
    NumberIsField(3, Extended(h.timestamp));
    SerializeJoins(Optional(Num(1, h.id)), Optional(Num(2, Extended(h.dataType))));
    SerializeJoins(Optional(Num(1, h.id)) + Optional(Num(2, Extended(h.dataType))), Optional(Num(3, Extended(h.timestamp))));
  }

  lemma RequestSchema(r: Request)
    ensures RequestBytes(r) == Serialize(RequestFields(r))
  {
    hide Delimited, OptionalData, Serialize, Optional, HeaderBytes, HeaderFields;
    HeaderSchema(r.header);
    DelimitedIsField(1, HeaderBytes(r.header));
    DelimitedIsField(2, r.data);
    SerializeJoins([Len(1, Serialize(HeaderFields(r.header)))], Optional(Len(2, r.data)));
  }

  lemma RequestsMore(front: seq<Request>, last: Request)
    ensures RepeatedRequests(front + [last]) == RepeatedRequests(front) + [Len(2, Serialize(RequestFields(last)))]
    ensures RequestsBytes(front + [last]) == RequestsBytes(front) + Delimited(0x12, RequestBytes(last))
  {
    hide Delimited, RequestBytes, RequestFields, Serialize;
    assert (front + [last])[..|front|] == front;
  }

  lemma {:induction false} RequestsSchema(rs: seq<Request>)
    ensures RequestsBytes(rs) == Serialize(RepeatedRequests(rs))
    decreases |rs|
  {
    if rs == [] {
      assert RepeatedRequests(rs) == [];
    } else {
      hide Delimited, RequestBytes, RequestFields, Serialize, RepeatedRequests;
      var front, last := rs[..|rs| - 1], rs[|rs| - 1];
      assert rs == front + [last];
      RequestsMore(front, last);
      RequestsSchema(front);
      RequestSchema(last);
      DelimitedIsField(2, RequestBytes(last));
      SerializeJoins(RepeatedRequests(front), [Len(2, Serialize(RequestFields(last)))]);
    }
  }

  /** So is that of a batch, with the repeated requests in order. */
  lemma BatchSchema(m: Batch)
    ensures BatchBytes(m) == Serialize(BatchFields(m))
  {
    hide Number, OptionalData, Serialize, Optional, RequestsBytes, RepeatedRequests;
    NumberIsField(1, Extended(m.reqNum));
    RequestsSchema(m.reqs);
    NumberIsField(3, Extended(m.timestamp));
    NumberIsField(4, Extended(m.source));
    NumberIsField(5, m.reqId);
    NumberIsField(6, m.origTerm);
    NumberIsField(7, m.origIndex);
    DelimitedIsField(8, m.origCluster);
    var f1, f2, f3, f4 := Optional(Num(1, Extended(m.reqNum))), RepeatedRequests(m.reqs), Optional(Num(3, Extended(m.timestamp))), Optional(Num(4, Extended(m.source)));
    var f5, f6, f7, f8 := Optional(Num(5, m.reqId)), Optional(Num(6, m.origTerm)), Optional(Num(7, m.origIndex)), Optional(Len(8, m.origCluster));
    SerializeJoins(f1, f2);
    SerializeJoins(f1 + f2, f3);
    SerializeJoins(f1 + f2 + f3, f4);
    SerializeJoins(f1 + f2 + f3 + f4, f5);
    SerializeJoins(f1 + f2 + f3 + f4 + f5, f6);
    SerializeJoins(f1 + f2 + f3 + f4 + f5 + f6, f7);
    SerializeJoins(f1 + f2 + f3 + f4 + f5 + f6 + f7, f8);
    Regrouped(Serialize(f1) + Serialize(f2), Serialize(f3), Serialize(f4), Serialize(f5), Serialize(f6), Serialize(f7), Serialize(f8));
  }

  lemma Regrouped(h: Bytes, a: Bytes, b: Bytes, c: Bytes, d: Bytes, e: Bytes, f: Bytes)
    ensures h + (a + b + (c + d + e) + f) == h + a + b + c + d + e + f
  {
  }

  // ---------------------------------------------------------------- reading fields in any order

  predicate Sendable(f: Field) { 1 <= f.num <= MAX_FIELD && (f.Len? ==> |f.payload| < TWO63) }

  function HeaderSet(h: Header, f: Field): Parsed<Header> {
    if f.num > 3 then Read(h)
    else if f.Len? then Malformed
    else if f.num == 1 then Read(h.(id := f.v))
    else if f.num == 2 then Read(h.(dataType := CutToInt32(f.v)))
    else Read(h.(timestamp := CutToInt64(f.v)))
  }

  function RequestSet(r: Request, f: Field): Parsed<Request> {
    if f.num > 2 then Read(r)
    else if f.Num? then Malformed
    else if f.num == 2 then Read(r.(data := f.payload))
    else match ParseHeader(r.header, f.payload)
      case Read(h) => Read(r.(header := h))
      case Malformed => Malformed
  }

  function BatchSet(m: Batch, f: Field): Parsed<Batch> {
    if f.num > 8 then Read(m)
    else if f.Len? != (f.num == 2 || f.num == 8) then Malformed
    else match f.num
      case 1 => Read(m.(reqNum := CutToInt32(f.v)))
      case 2 =>
        (match ParseRequest(NO_REQUEST, f.payload)
         case Read(r) => Read(m.(reqs := m.reqs + [r]))
         case Malformed => Malformed)
      case 3 => Read(m.(timestamp := CutToInt64(f.v)))
      case 4 => Read(m.(source := CutToInt32(f.v)))
      case 5 => Read(m.(reqId := f.v))
      case 6 => Read(m.(origTerm := f.v))
      case 7 => Read(m.(origIndex := f.v))
      case 8 => Read(m.(origCluster := f.payload))
      case _ => Malformed
  }

  /** Fields take effect one after the other; the first bad one makes the message malformed. */
  function Fold<T>(set1: (T, Field) -> Parsed<T>, m: T, fs: seq<Field>): Parsed<T> {
    if fs == [] then Read(m)
    else match set1(m, fs[0])
      case Read(m') => Fold(set1, m', fs[1..])
      case Malformed => Malformed
  }

  lemma FieldReads(f: Field, rest: Bytes)
    requires Sendable(f)
    ensures var b := FieldBytes(f) + rest;
            var body := if f.Num? then Varint(f.v) + rest else Varint(|f.payload|) + f.payload + rest;
            && b != [] && ReadTag(b) == Tag(f.num, if f.Num? then 0 else 2, body)
            && (f.Num? ==> ReadVarint(body, 0, 0) == Int(f.v, rest))
            && (f.Len? ==> ReadDelimited(body) == Data(f.payload, rest))
            && SkipField(b) == Skip(|FieldBytes(f)|)
  {
    hide Varint, ReadVarint, ReadTag, SkipGroup, CutToInt64;
    match f {
      case Num(num, v) =>
        assert FieldBytes(f) + rest == Varint(num * 8 + 0) + (Varint(v) + rest);
        KeyReads(num, 0, Varint(v) + rest);
        NumberReads(v, rest);
      case Len(num, payload) =>
        var body := Varint(|payload|) + payload + rest;
        assert FieldBytes(f) + rest == Varint(num * 8 + 2) + body;
        KeyReads(num, 2, body);
        DelimitedReads(payload, rest);
        assert body == Varint(|payload|) + (payload + rest);
        NumberReads(|payload|, payload + rest);
        SignedRoundTrip(|payload|);
    }
  }

  lemma HeaderReadsField(h: Header, f: Field, rest: Bytes)
    requires Sendable(f)
    ensures ParseHeader(h, FieldBytes(f) + rest) == match HeaderSet(h, f)
              case Read(h') => ParseHeader(h', rest)
              case Malformed => Malformed
  {
    hide FieldBytes, ReadVarint, ReadTag, SkipField, Varint, CutToInt32, CutToInt64;
    FieldReads(f, rest);
    assert (FieldBytes(f) + rest)[|FieldBytes(f)|..] == rest;
  }

  lemma RequestReadsField(r: Request, f: Field, rest: Bytes)
    requires Sendable(f)
    ensures ParseRequest(r, FieldBytes(f) + rest) == match RequestSet(r, f)
              case Read(r') => ParseRequest(r', rest)
              case Malformed => Malformed
  {
    hide FieldBytes, ReadVarint, ReadTag, ReadDelimited, SkipField, Varint, ParseHeader;
    FieldReads(f, rest);
    assert (FieldBytes(f) + rest)[|FieldBytes(f)|..] == rest;
  }

  lemma BatchReadsField(m: Batch, f: Field, rest: Bytes)
    requires Sendable(f)
    ensures ParseBatch(m, FieldBytes(f) + rest) == match BatchSet(m, f)
              case Read(m') => ParseBatch(m', rest)
              case Malformed => Malformed
  {
    hide FieldBytes, ReadVarint, ReadTag, ReadDelimited, SkipField, Varint, ParseRequest, CutToInt32, CutToInt64;
    FieldReads(f, rest);
    assert (FieldBytes(f) + rest)[|FieldBytes(f)|..] == rest;
  }

  predicate AllSendable(fs: seq<Field>) { forall k | 0 <= k < |fs| :: Sendable(fs[k]) }

  /** Whatever fields a message consists of, in whatever order, each sets what its number says; the last
      one of a number counts, requests add up, and unknown numbers are ignored. */
  lemma {:induction false} BatchReadsFields(m: Batch, fs: seq<Field>)
    requires AllSendable(fs)
    ensures ParseBatch(m, Serialize(fs)) == Fold(BatchSet, m, fs)
    decreases |fs|
  {
    hide BatchSet, FieldBytes, Sendable;
    if fs != [] {
      BatchReadsField(m, fs[0], Serialize(fs[1..]));
      if BatchSet(m, fs[0]).Read? { BatchReadsFields(BatchSet(m, fs[0]).value, fs[1..]); }
    }
  }

  lemma {:induction false} RequestReadsFields(r: Request, fs: seq<Field>)
    requires AllSendable(fs)
    ensures ParseRequest(r, Serialize(fs)) == Fold(RequestSet, r, fs)
    decreases |fs|
  {
    hide RequestSet, FieldBytes, Sendable;
    if fs != [] {
      RequestReadsField(r, fs[0], Serialize(fs[1..]));
      if RequestSet(r, fs[0]).Read? { RequestReadsFields(RequestSet(r, fs[0]).value, fs[1..]); }
    }
  }

  lemma {:induction false} HeaderReadsFields(h: Header, fs: seq<Field>)
    requires AllSendable(fs)
    ensures ParseHeader(h, Serialize(fs)) == Fold(HeaderSet, h, fs)
    decreases |fs|
  {
    hide HeaderSet, FieldBytes, Sendable;
    if fs != [] {
      HeaderReadsField(h, fs[0], Serialize(fs[1..]));
      if HeaderSet(h, fs[0]).Read? { HeaderReadsFields(HeaderSet(h, fs[0]).value, fs[1..]); }
    }
  }
}
