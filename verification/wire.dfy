/** The wire form of a batch of requests: node/raft_internal.pb.go, Protocol Buffers messages
    (base-128 varints, tag bytes, length-delimited fields). */
module Varints {
  import opened ByteOrder
  import opened NumberCodec

  type Int32 = x: int | -0x8000_0000 <= x < 0x8000_0000

  const TWO32 := 0x1_0000_0000

  function Varint(v: nat): Bytes {
    if v < 128 then [v] else [v % 128 + 128] + Varint(v / 128)
  }

  /** sovRaftInternal. */
  method VarintSize(v: nat) returns (n: nat)
    ensures n == |Varint(v)|
  {
    n := 0;
    var x: nat := v;
    while true
      invariant |Varint(v)| == n + |Varint(x)|
      decreases x
    {
      n := n + 1;
      x := x / 128;
      if x == 0 { break; }
    }
  }

  /** encodeVarintRaftInternal: writes at `offset` and returns the next free position. */
  method EncodeVarint(a: array<Byte>, offset: nat, v: nat) returns (next: nat)
    requires offset + |Varint(v)| <= a.Length
    modifies a
    ensures next == offset + |Varint(v)|
    ensures a[..next] == old(a[..offset]) + Varint(v) && a[next..] == old(a[next..])
  {
    var x := v;
    next := offset;
    while x >= 128
      invariant offset <= next && next + |Varint(x)| == offset + |Varint(v)|
      invariant a[..next] + Varint(x) == old(a[..offset]) + Varint(v)
      invariant forall k | offset + |Varint(v)| <= k < a.Length :: a[k] == old(a[k])
      decreases x
    {
      ghost var before := a[..next];
      a[next] := x % 128 + 128;
      assert a[..next + 1] == before + [x % 128 + 128];
      x := x / 128;
      next := next + 1;
    }
    ghost var before := a[..next];
    a[next] := x;
    next := next + 1;
    assert a[..next] == before + [x];
  }

  datatype ReadInt = Int(raw: nat, rest: Bytes) | Bad

  /** The inner loop of every Unmarshal: seven bits a byte, ten bytes at most. `raw` is the sum
      before it is cut to the width of the field. */
  function ReadVarint(b: Bytes, shift: nat, acc: nat): (r: ReadInt)
    ensures r.Int? ==> |r.rest| < |b|
  {
    if shift >= 64 || b == [] then Bad
    else
      var raw := acc + b[0] % 128 * Pow2(shift);
      if b[0] < 128 then Int(raw, b[1..]) else ReadVarint(b[1..], shift + 7, raw)
  }

  method DecodeVarint(d: Bytes, start: nat) returns (r: ReadInt)
    requires start <= |d|
    ensures r == ReadVarint(d[start..], 0, 0)
  {
    var shift: nat, iNdEx: nat, raw: nat := 0, start, 0;
    while true
      invariant start <= iNdEx <= |d|
      invariant ReadVarint(d[start..], 0, 0) == ReadVarint(d[iNdEx..], shift, raw)
      decreases |d| - iNdEx
    {
      if shift >= 64 { return Bad; }
      if iNdEx >= |d| { return Bad; }
      var b := d[iNdEx];
      assert d[iNdEx..][1..] == d[iNdEx + 1..];
      iNdEx := iNdEx + 1;
      raw := raw + b % 128 * Pow2(shift);
      if b < 128 { return Int(raw, d[iNdEx..]); }
      shift := shift + 7;
    }
  }

  lemma ShiftBySeven(v: nat, shift: nat)
    requires v >= 128
    ensures v % 128 * Pow2(shift) + v / 128 * Pow2(shift + 7) == v * Pow2(shift)
  {
    var p := Pow2(shift);
    assert Pow2(shift + 7) == 128 * p by {
      assert Pow2(shift + 7) == 2 * Pow2(shift + 6) && Pow2(shift + 6) == 2 * Pow2(shift + 5);
      assert Pow2(shift + 5) == 2 * Pow2(shift + 4) && Pow2(shift + 4) == 2 * Pow2(shift + 3);
      assert Pow2(shift + 3) == 2 * Pow2(shift + 2) && Pow2(shift + 2) == 2 * Pow2(shift + 1);
    }
    Regroup(v % 128, v / 128, p);
    assert v == 128 * (v / 128) + v % 128;
  }

  lemma Regroup(low: nat, high: nat, p: nat)
    ensures low * p + high * (128 * p) == (128 * high + low) * p
  {
  }

  lemma PowerSplits(v: nat, n: nat)
    requires v >= 128 && v < Pow2(n)
    ensures n > 7 && v / 128 < Pow2(n - 7)
  {
    if n <= 7 {
      assert Pow2(7) == 128 by {
        assert Pow2(7) == 2 * (2 * Pow2(5)) && Pow2(5) == 2 * (2 * Pow2(3)) && Pow2(3) == 2 * (2 * Pow2(1));
      }
      if n < 7 { Pow2Grows(n, 7); }
    } else {
      ShiftBySeven(128, n - 7);
      assert Pow2(n) == 128 * Pow2(n - 7);
    }
  }

  /** A varint followed by anything reads back, within the ten bytes allowed. */
  lemma {:induction false} VarintRoundTrip(v: nat, rest: Bytes, shift: nat, acc: nat)
    requires shift < 64 && v < Pow2(64 - shift)
    ensures ReadVarint(Varint(v) + rest, shift, acc) == Int(acc + v * Pow2(shift), rest)
  {
    hide Pow2;
    var b := Varint(v) + rest;
    if v < 128 {
      assert b[0] == v && b[1..] == rest;
    } else {
      var low, high := v % 128, v / 128;
      PowerSplits(v, 64 - shift);
      ShiftBySeven(v, shift);
      assert b[0] == low + 128 && b[0] % 128 == low && b[1..] == Varint(high) + rest;
      VarintRoundTrip(high, rest, shift + 7, acc + low * Pow2(shift));
    }
  }

  lemma WordFits()
    ensures Pow2(64) == TWO64
  {
    assert Pow2(8) == 256 by { assert Pow2(8) == 2 * (2 * (2 * Pow2(5))) && Pow2(5) == 2 * (2 * (2 * Pow2(2))); }
    PowerOf256(8);
    WordRange();
  }

  lemma {:induction false} PowerOf256(n: nat)
    ensures Pow2(8 * n) == Pow256(n)
  {
    if n > 0 {
      PowerOf256(n - 1);
      var k := 8 * (n - 1);
      assert Pow2(k + 8) == 2 * Pow2(k + 7) && Pow2(k + 7) == 2 * Pow2(k + 6) && Pow2(k + 6) == 2 * Pow2(k + 5);
      assert Pow2(k + 5) == 2 * Pow2(k + 4) && Pow2(k + 4) == 2 * Pow2(k + 3) && Pow2(k + 3) == 2 * Pow2(k + 2);
      assert Pow2(k + 2) == 2 * Pow2(k + 1);
    }
  }

  /** Signed fields travel as the 64-bit two's complement, so a negative one takes ten bytes. */
  function Extended(v: Int64): UInt64 { AsUint(v) }

  lemma {:induction false} VarintLength(v: nat, k: nat)
    requires Pow2(7 * k) <= v < Pow2(7 * (k + 1))
    ensures k > 0 ==> |Varint(v)| == k + 1
  {
    if k > 0 {
      ShiftBySeven(128, 7 * (k - 1));
      ShiftBySeven(128, 7 * k);
      Pow2Positive(7 * (k - 1));
      assert 128 * Pow2(7 * (k - 1)) == Pow2(7 * k) && 128 * Pow2(7 * k) == Pow2(7 * (k + 1));
      VarintLength(v / 128, k - 1);
      if k == 1 { assert Pow2(7) == 128 * Pow2(0); }
    }
  }

  lemma NegativeTakesTen(v: Int64)
    requires v < 0
    ensures |Varint(Extended(v))| == 10
  {
    WordFits();
    assert Pow2(64) == 2 * Pow2(63);
    Pow2Grows(64, 70);
    VarintLength(Extended(v), 9);
  }

  function CutToInt64(raw: nat): Int64 { AsInt(raw % TWO64) }

  function CutToInt32(raw: nat): Int32 {
    var low := raw % TWO32;
    if low >= 0x8000_0000 then low - TWO32 else low
  }

  lemma SignedRoundTrip(v: Int64)
    ensures CutToInt64(Extended(v)) == v
    ensures -0x8000_0000 <= v < 0x8000_0000 ==> CutToInt32(Extended(v)) == v
  {
  }
}

/** The three messages, their encoders and their decoders. */
module Wire {
  import opened ByteOrder
  import opened NumberCodec
  import opened Varints

  datatype Header = Header(id: UInt64, dataType: Int32, timestamp: Int64)
  datatype Request = Request(header: Header, data: Bytes)
  datatype Batch = Batch(reqNum: Int32, reqs: seq<Request>, timestamp: Int64, source: Int32, reqId: UInt64,
                         origTerm: UInt64, origIndex: UInt64, origCluster: Bytes)

  const NO_HEADER := Header(0, 0, 0)
  const NO_REQUEST := Request(NO_HEADER, [])
  const NO_BATCH := Batch(0, [], 0, 0, 0, 0, 0, [])

  // ---------------------------------------------------------------- encoding

  /** A number field; zero is left out. */
  function Number(tag: Byte, v: UInt64): Bytes { if v == 0 then [] else [tag] + Varint(v) }

  /** A length-delimited field. */
  function Delimited(tag: Byte, payload: Bytes): Bytes { [tag] + Varint(|payload|) + payload }

  function OptionalData(tag: Byte, data: Bytes): Bytes { if data == [] then [] else Delimited(tag, data) }

  function HeaderBytes(h: Header): Bytes {
    Number(0x08, h.id) + Number(0x10, Extended(h.dataType)) + Number(0x18, Extended(h.timestamp))
  }

  function RequestBytes(r: Request): Bytes {
    Delimited(0x0a, HeaderBytes(r.header)) + OptionalData(0x12, r.data)
  }

  function RequestsBytes(rs: seq<Request>): Bytes {
    if rs == [] then [] else RequestsBytes(rs[..|rs| - 1]) + Delimited(0x12, RequestBytes(rs[|rs| - 1]))
  }

  function BatchNumbers(m: Batch): Bytes {
    Number(0x28, m.reqId) + Number(0x30, m.origTerm) + Number(0x38, m.origIndex)
  }

  function BatchTail(m: Batch): Bytes {
    Number(0x18, Extended(m.timestamp)) + Number(0x20, Extended(m.source)) + BatchNumbers(m) +
    OptionalData(0x42, m.origCluster)
  }

  function BatchBytes(m: Batch): Bytes {
    Number(0x08, Extended(m.reqNum)) + RequestsBytes(m.reqs) + BatchTail(m)
  }

  // ---------------------------------------------------------------- decoding

  datatype Tag = Tag(num: int, wireType: nat, rest: Bytes) | BadTag

  /** The start of a field: its number, cut to 32 bits, and its wire type. */
  function ReadTag(b: Bytes): (r: Tag)
    ensures r.Tag? ==> |r.rest| < |b| && r.num >= 1
  {
    match ReadVarint(b, 0, 0)
    case Bad => BadTag
    case Int(raw, rest) =>
      var wire := raw % TWO64;
      var num := CutToInt32(wire / 8);
      if wire % 8 == 4 || num <= 0 then BadTag else Tag(num, wire % 8, rest)
  }

  datatype ReadData = Data(data: Bytes, rest: Bytes) | BadData

  function ReadDelimited(b: Bytes): (r: ReadData)
    ensures r.Data? ==> |r.rest| < |b|
  {
    match ReadVarint(b, 0, 0)
    case Bad => BadData
    case Int(raw, rest) =>
      var n := CutToInt64(raw);
      if n < 0 || n > |rest| then BadData else Data(rest[..n], rest[n..])
  }

  datatype SkipResult = Skip(n: nat) | BadSkip

  /** skipRaftInternal: the length of the field at the start of b, which may run past its end. */
  function SkipField(b: Bytes): (r: SkipResult)
    ensures r.Skip? ==> r.n >= 1
    decreases |b|, 1
  {
    match ReadVarint(b, 0, 0)
    case Bad => BadSkip
    case Int(raw, rest) =>
      var i := |b| - |rest|;
      match raw % 8
      case 0 => (match ReadVarint(rest, 0, 0) case Bad => BadSkip case Int(_, rest') => Skip(|b| - |rest'|))
      case 1 => Skip(i + 8)
      case 2 =>
        (match ReadVarint(rest, 0, 0)
         case Bad => BadSkip
         case Int(len, rest') =>
           var n := CutToInt64(len);
           if n < 0 then BadSkip else Skip(|b| - |rest'| + n))
      case 3 => SkipGroup(b, i)
      case 4 => Skip(i)
      case 5 => Skip(i + 4)
      case _ => BadSkip
  }

  function SkipGroup(b: Bytes, i: nat): (r: SkipResult)
    requires i >= 1
    ensures r.Skip? ==> r.n >= 1
    decreases |b| - i, 2
  {
    if i >= |b| then BadSkip
    else match ReadVarint(b[i..], 0, 0)
      case Bad => BadSkip
      case Int(raw, rest) =>
        if raw % 8 == 4 then Skip(|b| - |rest|)
        else match SkipField(b[i..])
          case BadSkip => BadSkip
          case Skip(n) => SkipGroup(b, i + n)
  }

  datatype Parsed<T> = Read(value: T) | Malformed

  function SetHeader(h: Header, num: int, raw: nat): Header {
    if num == 1 then h.(id := raw % TWO64)
    else if num == 2 then h.(dataType := CutToInt32(raw))
    else h.(timestamp := CutToInt64(raw))
  }

  function ParseHeader(h: Header, b: Bytes): Parsed<Header>
    decreases |b|
  {
    if b == [] then Read(h)
    else match ReadTag(b)
      case BadTag => Malformed
      case Tag(num, wireType, rest) =>
        if num <= 3 then
          if wireType != 0 then Malformed
          else match ReadVarint(rest, 0, 0)
            case Bad => Malformed
            case Int(raw, rest') => ParseHeader(SetHeader(h, num, raw), rest')
        else match SkipField(b)
          case BadSkip => Malformed
          case Skip(n) => if n > |b| then Malformed else ParseHeader(h, b[n..])
  }

  function ParseRequest(r: Request, b: Bytes): Parsed<Request>
    decreases |b|
  {
    if b == [] then Read(r)
    else match ReadTag(b)
      case BadTag => Malformed
      case Tag(num, wireType, rest) =>
        if num <= 2 then
          if wireType != 2 then Malformed
          else match ReadDelimited(rest)
            case BadData => Malformed
            case Data(data, rest') =>
              if num == 2 then ParseRequest(r.(data := data), rest')
              else match ParseHeader(r.header, data)
                case Malformed => Malformed
                case Read(h) => ParseRequest(r.(header := h), rest')
        else match SkipField(b)
          case BadSkip => Malformed
          case Skip(n) => if n > |b| then Malformed else ParseRequest(r, b[n..])
  }

  function SetNumber(m: Batch, num: int, raw: nat): Batch
    requires num in {1, 3, 4, 5, 6, 7}
  {
    if num == 1 then m.(reqNum := CutToInt32(raw))
    else if num == 3 then m.(timestamp := CutToInt64(raw))
    else if num == 4 then m.(source := CutToInt32(raw))
    else if num == 5 then m.(reqId := raw % TWO64)
    else if num == 6 then m.(origTerm := raw % TWO64)
    else m.(origIndex := raw % TWO64)
  }

  function ParseBatch(m: Batch, b: Bytes): Parsed<Batch>
    decreases |b|
  {
    if b == [] then Read(m)
    else match ReadTag(b)
      case BadTag => Malformed
      case Tag(num, wireType, rest) =>
        if num in {1, 3, 4, 5, 6, 7} then
          if wireType != 0 then Malformed
          else match ReadVarint(rest, 0, 0)
            case Bad => Malformed
            case Int(raw, rest') => ParseBatch(SetNumber(m, num, raw), rest')
        else if num in {2, 8} then
          if wireType != 2 then Malformed
          else match ReadDelimited(rest)
            case BadData => Malformed
            case Data(data, rest') =>
              if num == 8 then ParseBatch(m.(origCluster := data), rest')
              else match ParseRequest(NO_REQUEST, data)
                case Malformed => Malformed
                case Read(r) => ParseBatch(m.(reqs := m.reqs + [r]), rest')
        else match SkipField(b)
          case BadSkip => Malformed
          case Skip(n) => if n > |b| then Malformed else ParseBatch(m, b[n..])
  }

  // ---------------------------------------------------------------- round trip

  lemma TagReads(tag: Byte, rest: Bytes)
    requires 8 <= tag < 128 && tag % 8 != 4
    ensures ReadTag([tag] + rest) == Tag(tag / 8, tag % 8, rest)
  {
    hide ReadVarint, CutToInt32;
    OneByteReads(tag, rest);
    SmallIsUncut(tag);
  }

  lemma OneByteReads(v: Byte, rest: Bytes)
    requires v < 128
    ensures ReadVarint([v] + rest, 0, 0) == Int(v, rest)
  {
    assert ([v] + rest)[1..] == rest;
  }

  lemma SmallIsUncut(tag: Byte)
    ensures tag % TWO64 == tag && CutToInt32(tag / 8) == tag / 8
  {
  }

  lemma NumberReads(v: UInt64, rest: Bytes)
    ensures ReadVarint(Varint(v) + rest, 0, 0) == Int(v, rest)
  {
    hide Varint, ReadVarint;
    WordFits();
    VarintRoundTrip(v, rest, 0, 0);
  }

  lemma DelimitedReads(payload: Bytes, rest: Bytes)
    requires |payload| < TWO63
    ensures ReadDelimited(Varint(|payload|) + payload + rest) == Data(payload, rest)
  {
    hide Varint, ReadVarint, CutToInt64;
    SignedRoundTrip(|payload|);
    var tail := payload + rest;
    NumberReads(|payload|, tail);
    assert tail[..|payload|] == payload && tail[|payload|..] == rest;
    assert Varint(|payload|) + payload + rest == Varint(|payload|) + tail;
  }

  lemma HeaderNumber(h: Header, tag: Byte, v: UInt64, b: Bytes)
    requires tag in {0x08, 0x10, 0x18}
    ensures ParseHeader(h, Number(tag, v) + b) == ParseHeader(if v == 0 then h else SetHeader(h, tag / 8, v), b)
  {
    if v == 0 {
      assert Number(tag, v) + b == b;
    } else {
      assert Number(tag, v) + b == [tag] + (Varint(v) + b);
      TagReads(tag, Varint(v) + b);
      NumberReads(v, b);
    }
  }

  lemma HeaderRoundTrip(h: Header)
    ensures ParseHeader(NO_HEADER, HeaderBytes(h)) == Read(h)
  {
    hide ParseHeader, Number;
    var h1 := NO_HEADER.(id := h.id);
    var h2 := h1.(dataType := h.dataType);
    var type', time := Number(0x10, Extended(h.dataType)), Number(0x18, Extended(h.timestamp));
    SignedRoundTrip(h.dataType);
    SignedRoundTrip(h.timestamp);
    HeaderNumber(NO_HEADER, 0x08, h.id, type' + time);
    HeaderNumber(h1, 0x10, Extended(h.dataType), time);
    HeaderNumber(h2, 0x18, Extended(h.timestamp), []);
    HeaderEnds(h);
    assert HeaderBytes(h) == Number(0x08, h.id) + (type' + time) && time + [] == time;
  }

  lemma HeaderEnds(h: Header)
    ensures ParseHeader(h, []) == Read(h)
  {
  }

  /** Nothing in memory is longer than an int can say. */
  predicate Fits(r: Request) { |RequestBytes(r)| < TWO63 }

  lemma RequestHeader(r: Request, h: Header, b: Bytes)
    requires |HeaderBytes(h)| < TWO63 && r.header == NO_HEADER
    ensures ParseRequest(r, Delimited(0x0a, HeaderBytes(h)) + b) == ParseRequest(r.(header := h), b)
  {
    hide HeaderBytes, ParseHeader;
    var payload := HeaderBytes(h);
    assert Delimited(0x0a, payload) + b == [0x0a] + (Varint(|payload|) + payload + b);
    TagReads(0x0a, Varint(|payload|) + payload + b);
    DelimitedReads(payload, b);
    HeaderRoundTrip(h);
  }

  lemma RequestData(r: Request, data: Bytes, b: Bytes)
    requires |data| < TWO63 && r.data == []
    ensures ParseRequest(r, OptionalData(0x12, data) + b) == ParseRequest(r.(data := data), b)
  {
    if data == [] {
      assert OptionalData(0x12, data) + b == b;
    } else {
      assert OptionalData(0x12, data) + b == [0x12] + (Varint(|data|) + data + b);
      TagReads(0x12, Varint(|data|) + data + b);
      DelimitedReads(data, b);
    }
  }

  lemma RequestRoundTrip(r: Request)
    requires Fits(r)
    ensures ParseRequest(NO_REQUEST, RequestBytes(r)) == Read(r)
  {
    hide ParseRequest, HeaderBytes;
    RequestHeader(NO_REQUEST, r.header, OptionalData(0x12, r.data));
    var r1 := NO_REQUEST.(header := r.header);
    RequestData(r1, r.data, []);
    assert OptionalData(0x12, r.data) + [] == OptionalData(0x12, r.data);
    RequestEnds(r);
  }

  lemma RequestEnds(r: Request)
    ensures ParseRequest(r, []) == Read(r)
  {
  }

  lemma BatchNumber(m: Batch, tag: Byte, v: UInt64, b: Bytes)
    requires tag in {0x08, 0x18, 0x20, 0x28, 0x30, 0x38}
    ensures ParseBatch(m, Number(tag, v) + b) == ParseBatch(if v == 0 then m else SetNumber(m, tag / 8, v), b)
  {
    if v == 0 {
      assert Number(tag, v) + b == b;
    } else {
      assert Number(tag, v) + b == [tag] + (Varint(v) + b);
      TagReads(tag, Varint(v) + b);
      NumberReads(v, b);
    }
  }

  lemma BatchRequest(m: Batch, r: Request, b: Bytes)
    requires Fits(r)
    ensures ParseBatch(m, Delimited(0x12, RequestBytes(r)) + b) == ParseBatch(m.(reqs := m.reqs + [r]), b)
  {
    hide RequestBytes, ParseRequest;
    var payload := RequestBytes(r);
    assert Delimited(0x12, payload) + b == [0x12] + (Varint(|payload|) + payload + b);
    TagReads(0x12, Varint(|payload|) + payload + b);
    DelimitedReads(payload, b);
    RequestRoundTrip(r);
  }

  lemma {:induction false} BatchRequests(m: Batch, rs: seq<Request>, b: Bytes)
    requires forall k | 0 <= k < |rs| :: Fits(rs[k])
    ensures ParseBatch(m, RequestsBytes(rs) + b) == ParseBatch(m.(reqs := m.reqs + rs), b)
    decreases |rs|
  {
    hide ParseBatch, RequestBytes, Fits;
    if rs == [] {
      assert RequestsBytes(rs) + b == b && m.reqs + rs == m.reqs;
    } else {
      var n := |rs| - 1;
      var last := Delimited(0x12, RequestBytes(rs[n]));
      assert RequestsBytes(rs) + b == RequestsBytes(rs[..n]) + (last + b);
      BatchRequests(m, rs[..n], last + b);
      BatchRequest(m.(reqs := m.reqs + rs[..n]), rs[n], b);
      assert m.reqs + rs[..n] + [rs[n]] == m.reqs + rs;
    }
  }

  lemma BatchCluster(m: Batch, data: Bytes)
    requires |data| < TWO63 && m.origCluster == []
    ensures ParseBatch(m, OptionalData(0x42, data)) == Read(m.(origCluster := data))
  {
    var b: Bytes := [];
    if data != [] {
      assert OptionalData(0x42, data) == [0x42] + (Varint(|data|) + data + b);
      TagReads(0x42, Varint(|data|) + data + b);
      DelimitedReads(data, b);
    }
  }

  lemma BatchTailRoundTrip(m: Batch, m0: Batch)
    requires |m.origCluster| < TWO63
    requires m0 == NO_BATCH.(reqNum := m.reqNum, reqs := m.reqs)
    ensures ParseBatch(m0, BatchTail(m)) == Read(m)
  {
    hide ParseBatch, Number;
    var cluster := OptionalData(0x42, m.origCluster);
    var f3, f4 := Number(0x18, Extended(m.timestamp)), Number(0x20, Extended(m.source));
    var f5, f6, f7 := Number(0x28, m.reqId), Number(0x30, m.origTerm), Number(0x38, m.origIndex);
    var m3 := m0.(timestamp := m.timestamp);
    var m4 := m3.(source := m.source);
    var m5 := m4.(reqId := m.reqId);
    var m6 := m5.(origTerm := m.origTerm);
    var m7 := m6.(origIndex := m.origIndex);
    SignedRoundTrip(m.timestamp);
    SignedRoundTrip(m.source);
    assert BatchNumbers(m) + cluster == f5 + (f6 + (f7 + cluster));
    assert BatchTail(m) == f3 + (f4 + (BatchNumbers(m) + cluster));
    BatchNumber(m0, 0x18, Extended(m.timestamp), f4 + (f5 + (f6 + (f7 + cluster))));
    BatchNumber(m3, 0x20, Extended(m.source), f5 + (f6 + (f7 + cluster)));
    BatchNumber(m4, 0x28, m.reqId, f6 + (f7 + cluster));
    BatchNumber(m5, 0x30, m.origTerm, f7 + cluster);
    BatchNumber(m6, 0x38, m.origIndex, cluster);
    BatchCluster(m7, m.origCluster);
  }

  /** Unmarshalling what was marshalled into a fresh value gives the original back. */
  lemma BatchRoundTrip(m: Batch)
    requires |m.origCluster| < TWO63 && forall k | 0 <= k < |m.reqs| :: Fits(m.reqs[k])
    ensures ParseBatch(NO_BATCH, BatchBytes(m)) == Read(m)
  {
    hide ParseBatch, Number, BatchTail, RequestsBytes, Fits;
    SignedRoundTrip(m.reqNum);
    var m1 := NO_BATCH.(reqNum := m.reqNum);
    BatchNumber(NO_BATCH, 0x08, Extended(m.reqNum), RequestsBytes(m.reqs) + BatchTail(m));
    assert BatchBytes(m) == Number(0x08, Extended(m.reqNum)) + (RequestsBytes(m.reqs) + BatchTail(m));
    BatchRequests(m1, m.reqs, BatchTail(m));
    assert m1.reqs + m.reqs == m.reqs;
    BatchTailRoundTrip(m, m1.(reqs := m.reqs));
  }

  const MAX_FIELD := 0x1FFF_FFFF

  /** A field of a number the batch does not know, of any wire type but a group. */
  datatype Unknown = UnknownNumber(num: nat, v: UInt64) | UnknownData(num: nat, data: Bytes) | UnknownFixed(num: nat, data: Bytes)

  predicate WellFormed(u: Unknown) {
    && 9 <= u.num <= MAX_FIELD
    && match u
       case UnknownNumber(_, _) => true
       case UnknownData(_, data) => |data| < TWO63
       case UnknownFixed(_, data) => |data| == 8 || |data| == 4
  }

  function WireType(u: Unknown): nat {
    match u
    case UnknownNumber(_, _) => 0
    case UnknownData(_, _) => 2
    case UnknownFixed(_, data) => if |data| == 8 then 1 else 5
  }

  function Payload(u: Unknown): Bytes {
    match u
    case UnknownNumber(_, v) => Varint(v)
    case UnknownData(_, data) => Varint(|data|) + data
    case UnknownFixed(_, data) => data
  }

  /** The tag is itself a varint, of up to five bytes. */
  function UnknownBytes(u: Unknown): Bytes { Varint(u.num * 8 + WireType(u)) + Payload(u) }

  lemma KeyReads(num: nat, wireType: nat, rest: Bytes)
    requires 1 <= num <= MAX_FIELD && wireType < 8 && wireType != 4
    ensures var key := num * 8 + wireType;
            ReadVarint(Varint(key) + rest, 0, 0) == Int(key, rest) && ReadTag(Varint(key) + rest) == Tag(num, wireType, rest)
  {
    hide Varint, ReadVarint;
    NumberReads(num * 8 + wireType, rest);
  }

  /** The length of an unknown field, read from its tag and its payload. */
  lemma UnknownIsSkipped(u: Unknown, b: Bytes)
    requires WellFormed(u)
    ensures ReadTag(UnknownBytes(u) + b) == Tag(u.num, WireType(u), Payload(u) + b)
    ensures SkipField(UnknownBytes(u) + b) == Skip(|UnknownBytes(u)|)
  {
    hide Varint, ReadVarint, ReadTag, SkipGroup, CutToInt64;
    var key := u.num * 8 + WireType(u);
    assert UnknownBytes(u) + b == Varint(key) + (Payload(u) + b);
    KeyReads(u.num, WireType(u), Payload(u) + b);
    match u {
      case UnknownNumber(_, v) => NumberReads(v, b);
      case UnknownData(_, data) =>
        assert Payload(u) + b == Varint(|data|) + (data + b);
        NumberReads(|data|, data + b);
        SignedRoundTrip(|data|);
      case UnknownFixed(_, _) =>
    }
  }

  /** A field that a later version adds is skipped and changes nothing. */
  lemma UnknownIsIgnored(m: Batch, u: Unknown, b: Bytes)
    requires WellFormed(u)
    ensures ParseBatch(m, UnknownBytes(u) + b) == ParseBatch(m, b)
  {
    hide Varint, ReadTag, SkipField;
    UnknownIsSkipped(u, b);
    assert (UnknownBytes(u) + b)[|UnknownBytes(u)|..] == b;
  }

  // ---------------------------------------------------------------- the methods of the source

  /** The bytes at i are now `bytes`, and all others are as before. */
  ghost predicate Wrote(before: Bytes, i: nat, bytes: Bytes, a: Bytes) {
    && i + |bytes| <= |a| == |before|
    && a[..i + |bytes|] == before[..i] + bytes && a[i + |bytes|..] == before[i + |bytes|..]
  }

  /** A tag and a varint: a number, or the length of a payload still to come. */
  method PutHead(a: array<Byte>, i: nat, tag: Byte, v: nat) returns (next: nat)
    requires i + 1 + |Varint(v)| <= a.Length
    modifies a
    ensures next == i + 1 + |Varint(v)| && Wrote(old(a[..]), i, [tag] + Varint(v), a[..])
  {
    a[i] := tag;
    assert a[..i + 1] == old(a[..i]) + [tag];
    next := EncodeVarint(a, i + 1, v);
    assert a[..next] == old(a[..i]) + ([tag] + Varint(v));
  }

  method PutNumber(a: array<Byte>, i: nat, tag: Byte, v: UInt64) returns (next: nat)
    requires i + |Number(tag, v)| <= a.Length
    modifies a
    ensures next == i + |Number(tag, v)| && Wrote(old(a[..]), i, Number(tag, v), a[..])
  {
    next := i;
    if v != 0 { next := PutHead(a, i, tag, v); }
  }

  /** Go's copy. */
  method Copy(a: array<Byte>, i: nat, data: Bytes)
    requires i + |data| <= a.Length
    modifies a
    ensures Wrote(old(a[..]), i, data, a[..])
  {
    for k := 0 to |data|
      invariant Wrote(old(a[..]), i, data[..k], a[..])
    {
      ghost var before := a[..i + k];
      a[i + k] := data[k];
      assert a[..i + k + 1] == before + [data[k]] && data[..k + 1] == data[..k] + [data[k]];
    }
    assert data[..|data|] == data;
  }

  method PutData(a: array<Byte>, i: nat, tag: Byte, data: Bytes) returns (next: nat)
    requires i + |OptionalData(tag, data)| <= a.Length
    modifies a
    ensures next == i + |OptionalData(tag, data)| && Wrote(old(a[..]), i, OptionalData(tag, data), a[..])
  {
    hide Varint, Wrote;
    ghost var s0, head := a[..], [tag] + Varint(|data|);
    if |data| == 0 {
      WroteNothing(s0, i);
      return i;
    }
    assert OptionalData(tag, data) == head + data;
    next := PutHead(a, i, tag, |data|);
    ghost var s1 := a[..];
    Copy(a, next, data);
    WroteMore(s0, i, head, s1, data, a[..]);
    next := next + |data|;
  }

  lemma WroteNothing(a: Bytes, i: nat)
    requires i <= |a|
    ensures Wrote(a, i, [], a)
  {
  }

  lemma WroteMore(before: Bytes, i: nat, x: Bytes, mid: Bytes, y: Bytes, after: Bytes)
    requires Wrote(before, i, x, mid) && Wrote(mid, i + |x|, y, after)
    ensures Wrote(before, i, x + y, after)
  {
    assert before[..i] + x + y == before[..i] + (x + y);
    var m, n := i + |x|, i + |x + y|;
    assert after[n..] == mid[n..] == mid[m..][|y|..] && before[n..] == before[m..][|y|..];
  }

  method MarshalHeader(h: Header, a: array<Byte>, i: nat) returns (next: nat)
    requires i + |HeaderBytes(h)| <= a.Length
    modifies a
    ensures next == i + |HeaderBytes(h)| && Wrote(old(a[..]), i, HeaderBytes(h), a[..])
  {
    hide Number, Wrote;
    ghost var s0, f1, f2, f3 := a[..], Number(0x08, h.id), Number(0x10, Extended(h.dataType)), Number(0x18, Extended(h.timestamp));
    next := PutNumber(a, i, 0x08, h.id);
    ghost var s1 := a[..];
    next := PutNumber(a, next, 0x10, Extended(h.dataType));
    ghost var s2 := a[..];
    WroteMore(s0, i, f1, s1, f2, s2);
    next := PutNumber(a, next, 0x18, Extended(h.timestamp));
    WroteMore(s0, i, f1 + f2, s2, f3, a[..]);
  }

  method HeaderSize(h: Header) returns (n: nat)
    ensures n == |HeaderBytes(h)|
  {
    n := 0;
    if h.id != 0 {
      var l := VarintSize(h.id);
      n := n + 1 + l;
    }
    if h.dataType != 0 {
      var l := VarintSize(Extended(h.dataType));
      n := n + 1 + l;
    }
    if h.timestamp != 0 {
      var l := VarintSize(Extended(h.timestamp));
      n := n + 1 + l;
    }
  }

  method MarshalRequest(r: Request, a: array<Byte>, i: nat) returns (next: nat)
    requires i + |RequestBytes(r)| <= a.Length
    modifies a
    ensures next == i + |RequestBytes(r)| && Wrote(old(a[..]), i, RequestBytes(r), a[..])
  {
    hide Wrote, HeaderBytes, Varint;
    ghost var s0, head, header, data := a[..], [0x0a] + Varint(|HeaderBytes(r.header)|), HeaderBytes(r.header), OptionalData(0x12, r.data);
    var l := HeaderSize(r.header);
    next := PutHead(a, i, 0x0a, l);
    ghost var s1 := a[..];
    next := MarshalHeader(r.header, a, next);
    ghost var s2 := a[..];
    WroteMore(s0, i, head, s1, header, s2);
    next := PutData(a, next, 0x12, r.data);
    WroteMore(s0, i, head + header, s2, data, a[..]);
  }

  method RequestSize(r: Request) returns (n: nat)
    ensures n == |RequestBytes(r)|
  {
    hide HeaderBytes, Varint;
    var l := HeaderSize(r.header);
    var k := VarintSize(l);
    n := 1 + l + k;
    if |r.data| > 0 {
      k := VarintSize(|r.data|);
      n := n + 1 + |r.data| + k;
    }
  }

  method RequestsSize(rs: seq<Request>) returns (n: nat)
    ensures n == |RequestsBytes(rs)|
  {
    hide RequestBytes, Varint;
    n := 0;
    for k := 0 to |rs|
      invariant n == |RequestsBytes(rs[..k])|
    {
      var l := RequestSize(rs[k]);
      var v := VarintSize(l);
      n := n + 1 + l + v;
      assert rs[..k + 1][..k] == rs[..k];
    }
    assert rs[..|rs|] == rs;
  }

  method MarshalRequests(rs: seq<Request>, a: array<Byte>, i: nat) returns (next: nat)
    requires i + |RequestsBytes(rs)| <= a.Length
    modifies a
    ensures next == i + |RequestsBytes(rs)| && Wrote(old(a[..]), i, RequestsBytes(rs), a[..])
  {
    hide RequestBytes, Varint;
    next := i;
    ghost var s0 := a[..];
    for k := 0 to |rs|
      invariant next == i + |RequestsBytes(rs[..k])| && Wrote(s0, i, RequestsBytes(rs[..k]), a[..])
    {
      RequestsGrow(rs, k);
      ghost var s1, before := a[..], RequestsBytes(rs[..k]);
      next := MarshalOne(rs[k], a, next);
      WroteMore(s0, i, before, s1, Delimited(0x12, RequestBytes(rs[k])), a[..]);
    }
    assert rs[..|rs|] == rs;
  }

  lemma {:induction false} RequestsGrow(rs: seq<Request>, k: nat)
    requires k < |rs|
    ensures RequestsBytes(rs[..k + 1]) == RequestsBytes(rs[..k]) + Delimited(0x12, RequestBytes(rs[k]))
    ensures |RequestsBytes(rs[..k + 1])| <= |RequestsBytes(rs)|
    decreases |rs| - k
  {
    assert rs[..k + 1][..k] == rs[..k];
    if k + 1 < |rs| { RequestsGrow(rs, k + 1); } else { assert rs[..k + 1] == rs; }
  }

  method MarshalOne(r: Request, a: array<Byte>, i: nat) returns (next: nat)
    requires i + |Delimited(0x12, RequestBytes(r))| <= a.Length
    modifies a
    ensures next == i + |Delimited(0x12, RequestBytes(r))|
    ensures Wrote(old(a[..]), i, Delimited(0x12, RequestBytes(r)), a[..])
  {
    hide RequestBytes, Varint, Wrote;
    ghost var s0 := a[..];
    var l := RequestSize(r);
    next := PutHead(a, i, 0x12, l);
    ghost var s1 := a[..];
    next := MarshalRequest(r, a, next);
    WroteMore(s0, i, [0x12] + Varint(|RequestBytes(r)|), s1, RequestBytes(r), a[..]);
  }

  method MarshalNumbers(m: Batch, a: array<Byte>, i: nat) returns (next: nat)
    requires i + |BatchNumbers(m)| <= a.Length
    modifies a
    ensures next == i + |BatchNumbers(m)| && Wrote(old(a[..]), i, BatchNumbers(m), a[..])
  {
    hide Number, Wrote;
    ghost var s0 := a[..];
    ghost var f5, f6, f7 := Number(0x28, m.reqId), Number(0x30, m.origTerm), Number(0x38, m.origIndex);
    next := PutNumber(a, i, 0x28, m.reqId);
    ghost var s5 := a[..];
    next := PutNumber(a, next, 0x30, m.origTerm);
    ghost var s6 := a[..];
    WroteMore(s0, i, f5, s5, f6, s6);
    next := PutNumber(a, next, 0x38, m.origIndex);
    WroteMore(s0, i, f5 + f6, s6, f7, a[..]);
  }

  method MarshalTail(m: Batch, a: array<Byte>, i: nat) returns (next: nat)
    requires i + |BatchTail(m)| <= a.Length
    modifies a
    ensures next == i + |BatchTail(m)| && Wrote(old(a[..]), i, BatchTail(m), a[..])
  {
    hide Number, Wrote, OptionalData, BatchNumbers;
    ghost var s0, f3, f4 := a[..], Number(0x18, Extended(m.timestamp)), Number(0x20, Extended(m.source));
    next := PutNumber(a, i, 0x18, Extended(m.timestamp));
    ghost var s3 := a[..];
    next := PutNumber(a, next, 0x20, Extended(m.source));
    ghost var s4 := a[..];
    WroteMore(s0, i, f3, s3, f4, s4);
    next := MarshalNumbers(m, a, next);
    ghost var s7 := a[..];
    WroteMore(s0, i, f3 + f4, s4, BatchNumbers(m), s7);
    next := PutData(a, next, 0x42, m.origCluster);
    WroteMore(s0, i, f3 + f4 + BatchNumbers(m), s7, OptionalData(0x42, m.origCluster), a[..]);
  }

  method MarshalTo(m: Batch, a: array<Byte>) returns (n: nat)
    requires |BatchBytes(m)| <= a.Length
    modifies a
    ensures n == |BatchBytes(m)| && a[..n] == BatchBytes(m) && a[n..] == old(a[n..])
  {
    hide Number, BatchTail, RequestsBytes;
    ghost var s0, f1 := a[..], Number(0x08, Extended(m.reqNum));
    n := PutNumber(a, 0, 0x08, Extended(m.reqNum));
    ghost var s1 := a[..];
    n := MarshalRequests(m.reqs, a, n);
    ghost var s2 := a[..];
    WroteMore(s0, 0, f1, s1, RequestsBytes(m.reqs), s2);
    n := MarshalTail(m, a, n);
    WroteMore(s0, 0, f1 + RequestsBytes(m.reqs), s2, BatchTail(m), a[..]);
    assert a[..][..n] == s0[..0] + BatchBytes(m) && a[..][n..] == a[n..] && s0[n..] == old(a[n..]);
  }

  method NumberSize(v: UInt64) returns (n: nat)
    ensures forall tag: Byte :: n == |Number(tag, v)|
  {
    n := 0;
    if v != 0 {
      var l := VarintSize(v);
      n := 1 + l;
    }
  }

  method Size(m: Batch) returns (n: nat)
    ensures n == |BatchBytes(m)|
  {
    hide Number, RequestsBytes, Varint;
    n := NumberSize(Extended(m.reqNum));
    var l := RequestsSize(m.reqs);
    n := n + l;
    l := NumberSize(Extended(m.timestamp));
    n := n + l;
    l := NumberSize(Extended(m.source));
    n := n + l;
    l := NumberSize(m.reqId);
    n := n + l;
    l := NumberSize(m.origTerm);
    n := n + l;
    l := NumberSize(m.origIndex);
    n := n + l;
    if |m.origCluster| > 0 {
      l := VarintSize(|m.origCluster|);
      n := n + 1 + |m.origCluster| + l;
    }
  }

  /** A buffer of exactly Size bytes, filled exactly. */
  method Marshal(m: Batch) returns (bytes: Bytes)
    ensures bytes == BatchBytes(m)
  {
    var size := Size(m);
    var a := new Byte[size](_ => 0);
    var n := MarshalTo(m, a);
    bytes := a[..n];
  }

  method UnmarshalHeader(h0: Header, d: Bytes) returns (r: Parsed<Header>)
    ensures r == ParseHeader(h0, d)
  {
    hide ReadTag, SkipField, ReadVarint;
    var h, b := h0, d;
    while |b| > 0
      invariant ParseHeader(h0, d) == ParseHeader(h, b)
      decreases |b|
    {
      var tag := ReadTag(b);
      if tag.BadTag? { return Malformed; }
      if tag.num <= 3 {
        if tag.wireType != 0 { return Malformed; }
        var v := DecodeVarint(tag.rest, 0);
        assert tag.rest[0..] == tag.rest;
        if v.Bad? { return Malformed; }
        h, b := SetHeader(h, tag.num, v.raw), v.rest;
      } else {
        var skip := SkipField(b);
        if skip.BadSkip? || skip.n > |b| { return Malformed; }
        b := b[skip.n..];
      }
    }
    r := Read(h);
  }

  method UnmarshalRequest(r0: Request, d: Bytes) returns (r: Parsed<Request>)
    ensures r == ParseRequest(r0, d)
  {
    hide ReadTag, SkipField, ReadDelimited, ParseHeader;
    var q, b := r0, d;
    while |b| > 0
      invariant ParseRequest(r0, d) == ParseRequest(q, b)
      decreases |b|
    {
      var tag := ReadTag(b);
      if tag.BadTag? { return Malformed; }
      if tag.num <= 2 {
        if tag.wireType != 2 { return Malformed; }
        var v := ReadDelimited(tag.rest);
        if v.BadData? { return Malformed; }
        if tag.num == 1 {
          var h := UnmarshalHeader(q.header, v.data);
          if h.Malformed? { return Malformed; }
          q := q.(header := h.value);
        } else {
          q := q.(data := v.data);
        }
        b := v.rest;
      } else {
        var skip := SkipField(b);
        if skip.BadSkip? || skip.n > |b| { return Malformed; }
        b := b[skip.n..];
      }
    }
    r := Read(q);
  }

  method Unmarshal(m0: Batch, d: Bytes) returns (r: Parsed<Batch>)
    ensures r == ParseBatch(m0, d)
  {
    hide ReadTag, SkipField, ReadDelimited, ParseRequest, ReadVarint;
    var m, b := m0, d;
    while |b| > 0
      invariant ParseBatch(m0, d) == ParseBatch(m, b)
      decreases |b|
    {
      var tag := ReadTag(b);
      if tag.BadTag? { return Malformed; }
      if tag.num in {1, 3, 4, 5, 6, 7} {
        if tag.wireType != 0 { return Malformed; }
        var v := DecodeVarint(tag.rest, 0);
        assert tag.rest[0..] == tag.rest;
        if v.Bad? { return Malformed; }
        m, b := SetNumber(m, tag.num, v.raw), v.rest;
      } else if tag.num in {2, 8} {
        if tag.wireType != 2 { return Malformed; }
        var v := ReadDelimited(tag.rest);
        if v.BadData? { return Malformed; }
        if tag.num == 2 {
          var q := UnmarshalRequest(NO_REQUEST, v.data);
          if q.Malformed? { return Malformed; }
          m := m.(reqs := m.reqs + [q.value]);
        } else {
          m := m.(origCluster := v.data);
        }
        b := v.rest;
      } else {
        var skip := SkipField(b);
        if skip.BadSkip? || skip.n > |b| { return Malformed; }
        b := b[skip.n..];
      }
    }
    r := Read(m);
  }
}
