/** Tuples of values as sortable keys: rockredis/memcmp_codec.go. */
module TupleCodec {
  import opened ByteOrder
  import BytesCodec
  import NumberCodec

  const NIL_FLAG: Byte := 0
  const BYTES_FLAG: Byte := 1
  const INT_FLAG: Byte := 3
  const FLOAT_FLAG: Byte := 5
  const MAX_FLAG: Byte := 250

  /** What a caller may pass: every Go integer type the encoder knows widens to `Int`, strings are
      `Str`, both float types are `Float` (as a bit pattern), and `Other` is any other type. */
  datatype Value = Nil | Str(bytes: Bytes) | Int(v: NumberCodec.Int64) | Float(f: NumberCodec.UInt64) | Other

  function EncodeOne(v: Value): Bytes
    requires !v.Other?
  {
    match v
    case Nil => [NIL_FLAG]
    case Str(x) => [BYTES_FLAG] + BytesCodec.Encoded(x)
    case Int(i) => [INT_FLAG] + NumberCodec.Word(NumberCodec.IntToCmp(i))
    case Float(f) => [FLOAT_FLAG] + NumberCodec.Word(NumberCodec.FloatToCmp(f))
  }

  predicate Known(vs: seq<Value>) { forall k | 0 <= k < |vs| :: !vs[k].Other? }

  function EncodeAll(vs: seq<Value>): Bytes
    requires Known(vs)
  {
    if vs == [] then [] else EncodeOne(vs[0]) + EncodeAll(vs[1..])
  }

  datatype Encoding = Key(bytes: Bytes) | Unsupported

  /** EncodeMemCmpKey. */
  method MemcmpEncode(b: Bytes, vals: seq<Value>) returns (r: Encoding)
    ensures r == if Known(vals) then Key(b + EncodeAll(vals)) else Unsupported
  {
    hide EncodeOne;
    var out := b;
    for k := 0 to |vals|
      invariant Known(vals[..k])
      invariant Known(vals) ==> b + EncodeAll(vals) == out + EncodeAll(vals[k..])
    {
      if vals[k].Other? { return Unsupported; }
      ghost var before := out;
      out := AppendOne(out, vals[k]);
      if Known(vals) {
        assert vals[k..][1..] == vals[k + 1..];
        assert before + (EncodeOne(vals[k]) + EncodeAll(vals[k + 1..])) == out + EncodeAll(vals[k + 1..]);
      }
    }
    r := Key(out);
  }

  /** The cases of the source's type switch. */
  method AppendOne(b: Bytes, v: Value) returns (out: Bytes)
    requires !v.Other?
    ensures out == b + EncodeOne(v)
  {
    match v {
      case Nil => out := b + [NIL_FLAG];
      case Str(x) =>
        out := b + [BYTES_FLAG];
        out := BytesCodec.EncodeBytes(out, x);
      case Int(i) =>
        out := b + [INT_FLAG];
        out := out + NumberCodec.Word(NumberCodec.IntToCmp(i));
      case Float(f) =>
        out := b + [FLOAT_FLAG];
        out := out + NumberCodec.Word(NumberCodec.FloatToCmp(f));
    }
  }

  // ---------------------------------------------------------------- order

  function Flag(v: Value): Byte
    requires !v.Other?
  {
    match v
    case Nil => NIL_FLAG
    case Str(_) => BYTES_FLAG
    case Int(_) => INT_FLAG
    case Float(_) => FLOAT_FLAG
  }

  /** Values that a key may hold and be found by: known, and not a NaN. */
  predicate Comparable(v: Value) { !v.Other? && (v.Float? ==> !NumberCodec.IsNaN(v.f)) }

  function Rank(v: Value): nat {
    match v
    case Nil => 0
    case Str(_) => 1
    case Int(_) => 2
    case Float(_) => 3
    case Other => 4
  }

  /** Nil, then strings, then integers, then floats; within a kind by value. */
  predicate ValueLess(a: Value, b: Value)
    requires Comparable(a) && Comparable(b)
  {
    if Rank(a) != Rank(b) then Rank(a) < Rank(b)
    else match a
      case Nil => false
      case Str(x) => Less(x, b.bytes)
      case Int(i) => i < b.v
      case Float(f) => NumberCodec.Value(f) < NumberCodec.Value(b.f)
  }

  /** Equal as values: the two zeros are. */
  predicate SameValue(a: Value, b: Value) {
    a == b || (a.Float? && b.Float? && NumberCodec.Value(a.f) == NumberCodec.Value(b.f))
  }

  predicate AllComparable(vs: seq<Value>) { forall k | 0 <= k < |vs| :: Comparable(vs[k]) }

  /** Field by field, a proper prefix first. */
  predicate TupleLess(xs: seq<Value>, ys: seq<Value>)
    requires AllComparable(xs) && AllComparable(ys)
  {
    ys != [] && (xs == [] || ValueLess(xs[0], ys[0]) || (SameValue(xs[0], ys[0]) && TupleLess(xs[1..], ys[1..])))
  }

  /** Values that differ have encodings that differ first where it orders them; values that are
      the same have the same encoding. */
  lemma ValuesDiffer(a: Value, b: Value) returns (p: nat)
    requires Comparable(a) && Comparable(b) && !SameValue(a, b)
    ensures DifferAt(EncodeOne(a), EncodeOne(b), p)
    ensures EncodeOne(a)[p] < EncodeOne(b)[p] <==> ValueLess(a, b)
  {
    if Rank(a) != Rank(b) {
      p := 0;
      FlagFirst(a);
      FlagFirst(b);
      assert EncodeOne(a)[..0] == EncodeOne(b)[..0];
    } else {
      match a {
        case Str(x) =>
          p := BytesCodec.EncodedDiffer(x, b.bytes);
          AfterFlag(BYTES_FLAG, BytesCodec.Encoded(x), BytesCodec.Encoded(b.bytes), p);
        case Int(i) =>
          NumberCodec.IntCmp(i, b.v, 0);
          NumberCodec.IntCmp(b.v, i, 0);
          p := WordsDiffer(INT_FLAG, NumberCodec.IntToCmp(i), NumberCodec.IntToCmp(b.v));
          return;
        case Float(f) =>
          NumberCodec.FloatCmp(f, b.f);
          p := WordsDiffer(FLOAT_FLAG, NumberCodec.FloatToCmp(f), NumberCodec.FloatToCmp(b.f));
          return;
      }
      p := p + 1;
    }
  }

  lemma FlagFirst(a: Value)
    requires !a.Other?
    ensures |EncodeOne(a)| >= 1 && EncodeOne(a)[0] == Flag(a)
  {
  }

  lemma AfterFlag(flag: Byte, a: Bytes, b: Bytes, p: nat)
    requires DifferAt(a, b, p)
    ensures DifferAt([flag] + a, [flag] + b, p + 1)
    ensures ([flag] + a)[p + 1] == a[p] && ([flag] + b)[p + 1] == b[p]
  {
    DifferAfterHead([flag], a, b, p);
  }

  lemma WordsDiffer(flag: Byte, u: NumberCodec.UInt64, v: NumberCodec.UInt64) returns (p: nat)
    requires u != v
    ensures var a, b := [flag] + NumberCodec.Word(u), [flag] + NumberCodec.Word(v);
            DifferAt(a, b, p) && (a[p] < b[p] <==> u < v)
  {
    p := NumberCodec.WordDiffer(u, v);
    AfterFlag(flag, NumberCodec.Word(u), NumberCodec.Word(v), p);
    p := p + 1;
  }

  lemma SameValueEncodesSame(a: Value, b: Value)
    requires Comparable(a) && Comparable(b) && SameValue(a, b)
    ensures EncodeOne(a) == EncodeOne(b) && !ValueLess(a, b)
  {
    match a {
      case Nil =>
      case Str(x) => NotLessItself(x);
      case Int(_) =>
      case Float(f) => NumberCodec.FloatCmp(f, b.f);
    }
  }

  /** Keys sort exactly as the tuples they encode. */
  lemma {:induction false} TupleOrder(xs: seq<Value>, ys: seq<Value>)
    requires AllComparable(xs) && AllComparable(ys)
    ensures Less(EncodeAll(xs), EncodeAll(ys)) <==> TupleLess(xs, ys)
    decreases |xs|
  {
    if ys == [] {
    } else if xs == [] {
      FlagFirst(ys[0]);
    } else if SameValue(xs[0], ys[0]) {
      SameValueEncodesSame(xs[0], ys[0]);
      BytesCodec.HeadCancels(EncodeOne(xs[0]), EncodeAll(xs[1..]), EncodeAll(ys[1..]));
      TupleOrder(xs[1..], ys[1..]);
    } else {
      var p := ValuesDiffer(xs[0], ys[0]);
      DifferWithTails(EncodeOne(xs[0]), EncodeAll(xs[1..]), EncodeOne(ys[0]), EncodeAll(ys[1..]), p);
      FirstDifferenceDecides(EncodeAll(xs), EncodeAll(ys), p);
    }
  }

  function MaxKey(): Bytes { [MAX_FLAG] }

  function MinNotNull(): Bytes { [BYTES_FLAG] }

  /** The bounds of a scan: EncodeMaxKey sorts after every key, and EncodeMinNotNull separates the
      keys that start with nil from the others. */
  lemma ScanBounds(vs: seq<Value>)
    requires Known(vs) && vs != []
    ensures Less(EncodeAll(vs), MaxKey()) && MaxKey() == [250]
    ensures Less(EncodeAll(vs), MinNotNull()) <==> vs[0].Nil?
  {
    FlagFirst(vs[0]);
    assert EncodeAll(vs)[0] == Flag(vs[0]);
  }

  /** What is on disk, byte by byte: the kind in the first byte, then the bytes of a string in groups
      of nine, an integer moved up by 2^63, or a double with its sign bit or all of its bits flipped. */
  lemma StoredForm(v: Value)
    requires !v.Other?
    ensures |EncodeOne(v)| >= 1
    ensures EncodeOne(v)[0] == match v case Nil => 0 case Str(_) => 1 case Int(_) => 3 case _ => 5
    ensures var tail := EncodeOne(v)[1..];
            match v
            case Nil => tail == []
            case Str(x) => BytesCodec.Laid(x, tail)
            case Int(i) => |tail| == 8 && NumberCodec.FromBigEndian(tail) == i + 0x8000_0000_0000_0000
            case Float(f) =>
              && |tail| == 8
              && (!NumberCodec.IsNaN(f) ==>
                    NumberCodec.FromBigEndian(tail) == if f <= 0x8000_0000_0000_0000 then f % 0x8000_0000_0000_0000 + 0x8000_0000_0000_0000
                                                       else 0xFFFF_FFFF_FFFF_FFFF - f)
            case Other => true
  {
    match v {
      case Nil =>
      case Str(x) =>
        BytesCodec.LaysOut(x);
        assert EncodeOne(v)[1..] == BytesCodec.Encoded(x);
      case Int(i) => WordStored(INT_FLAG, NumberCodec.IntToCmp(i));
      case Float(f) =>
        WordStored(FLOAT_FLAG, NumberCodec.FloatToCmp(f));
        NumberCodec.ZeroIsZero(f);
    }
  }

  lemma WordStored(flag: Byte, u: NumberCodec.UInt64)
    ensures ([flag] + NumberCodec.Word(u))[1..] == NumberCodec.Word(u)
    ensures |NumberCodec.Word(u)| == 8 && NumberCodec.FromBigEndian(NumberCodec.Word(u)) == u
  {
    NumberCodec.WordRange();
    NumberCodec.BigEndianBack(u, NumberCodec.WIDTH);
  }

  // ---------------------------------------------------------------- decoding

  datatype DecodedValue = Ok(rest: Bytes, value: Value) | Err(error: BytesCodec.Error)

  function DecodeOne(b: Bytes): DecodedValue {
    if |b| < 1 then Err(BytesCodec.Insufficient)
    else if b[0] == INT_FLAG then
      match NumberCodec.DecodeWord(b[1..])
      case Ok(rest, u) => Ok(rest, Int(NumberCodec.CmpToInt(u)))
      case Short => Err(BytesCodec.Insufficient)
    else if b[0] == FLOAT_FLAG then
      match NumberCodec.DecodeWord(b[1..])
      case Ok(rest, u) => Ok(rest, Float(NumberCodec.CmpToFloat(u)))
      case Short => Err(BytesCodec.Insufficient)
    else if b[0] == BYTES_FLAG then
      match BytesCodec.DecodeOnto([], b[1..])
      case Ok(rest, x) => Ok(rest, Str(x))
      case Err(e) => Err(e)
    else if b[0] == NIL_FLAG then Ok(b[1..], Nil)
    else Err(BytesCodec.BadFlag)
  }

  /** The first byte alone decides the kind that is read. */
  lemma KindByFirstByte(b: Bytes)
    requires DecodeOne(b).Ok?
    ensures b != [] && var v := DecodeOne(b).value;
            && (v.Nil? <==> b[0] == 0) && (v.Str? <==> b[0] == 1) && (v.Int? <==> b[0] == 3) && (v.Float? <==> b[0] == 5)
  {
  }

  /** A successful step consumes input. */
  lemma DecodeOneShrinks(b: Bytes)
    requires DecodeOne(b).Ok?
    ensures |DecodeOne(b).rest| < |b|
  {
    if b[0] == BYTES_FLAG { var x := BytesCodec.Canonical([], b[1..]); }
  }

  datatype DecodedTuple = Tuple(values: seq<Value>) | Bad(error: BytesCodec.Error)

  function DecodeOntoTuple(vs: seq<Value>, b: Bytes): DecodedTuple
    decreases |b|
  {
    if b == [] then Tuple(vs)
    else match DecodeOne(b)
      case Ok(rest, v) => DecodeOneShrinks(b); DecodeOntoTuple(vs + [v], rest)
      case Err(e) => Bad(e)
  }

  /** Decode: an empty key is an error. */
  method Decode(input: Bytes) returns (r: DecodedTuple)
    ensures r == if input == [] then Bad(BytesCodec.Insufficient) else DecodeOntoTuple([], input)
  {
    if |input| < 1 { return Bad(BytesCodec.Insufficient); }
    var b, values := input, [];
    while |b| > 0
      invariant DecodeOntoTuple([], input) == DecodeOntoTuple(values, b)
      decreases |b|
    {
      var d := DecodeOne(b);
      if d.Err? { return Bad(d.error); }
      DecodeOneShrinks(b);
      values := values + [d.value];
      b := d.rest;
    }
    r := Tuple(values);
  }

  /** Floats that do not come back as they were (NumberCodec.FloatRoundTrip). */
  predicate Lossy(v: Value) {
    v.Float? && (v.f == NumberCodec.NEG_ZERO || (NumberCodec.IsNaN(v.f) && !NumberCodec.Negative(v.f)))
  }

  function Read(v: Value): Value {
    if v.Float? then Float(NumberCodec.CmpToFloat(NumberCodec.FloatToCmp(v.f))) else v
  }

  /** One value followed by anything is read back, exactly when it is not lossy. */
  lemma OneRoundTrip(v: Value, rest: Bytes)
    requires !v.Other?
    ensures DecodeOne(EncodeOne(v) + rest) == Ok(rest, Read(v))
    ensures Read(v) == v <==> !Lossy(v)
  {
    hide NumberCodec.FloatToCmp, NumberCodec.CmpToFloat, NumberCodec.Word, NumberCodec.DecodeWord,
         NumberCodec.IntToCmp, NumberCodec.CmpToInt, NumberCodec.IsNaN, BytesCodec.Encoded, BytesCodec.DecodeOnto;
    var b := EncodeOne(v) + rest;
    match v {
      case Nil => assert b[1..] == rest;
      case Str(x) =>
        assert b[1..] == BytesCodec.Encoded(x) + rest;
        BytesCodec.RoundTrip([], x, rest);
        assert [] + x == x;
      case Int(i) =>
        assert b[1..] == NumberCodec.Word(NumberCodec.IntToCmp(i)) + rest;
        NumberCodec.WordRoundTrip(NumberCodec.IntToCmp(i), rest);
        NumberCodec.IntCmp(i, i, 0);
      case Float(f) =>
        assert b[1..] == NumberCodec.Word(NumberCodec.FloatToCmp(f)) + rest;
        NumberCodec.WordRoundTrip(NumberCodec.FloatToCmp(f), rest);
        NumberCodec.FloatRoundTrip(f);
    }
  }

  /** What decodes is the encoding of the value followed by the rest, exactly when the value is not lossy. */
  lemma OneCanonical(b: Bytes)
    requires DecodeOne(b).Ok?
    ensures b == EncodeOne(DecodeOne(b).value) + DecodeOne(b).rest <==> !Lossy(DecodeOne(b).value)
  {
    assert b == [b[0]] + b[1..];
    if b[0] == BYTES_FLAG {
      var x := BytesCodec.Canonical([], b[1..]);
      assert [] + x == x;
    } else if b[0] == INT_FLAG {
      var d := NumberCodec.DecodeWord(b[1..]);
      NumberCodec.WordCanonical(b[1..]);
      NumberCodec.IntCmp(0, 0, d.value);
    } else if b[0] == FLOAT_FLAG {
      FloatsCanonical(b);
    }
  }

  lemma FloatsCanonical(b: Bytes)
    requires |b| >= 1 && b[0] == FLOAT_FLAG && NumberCodec.DecodeWord(b[1..]).Ok?
    ensures var d := NumberCodec.DecodeWord(b[1..]);
            var f := NumberCodec.CmpToFloat(d.value);
            b == EncodeOne(Float(f)) + d.rest <==> !Lossy(Float(f))
  {
    var d := NumberCodec.DecodeWord(b[1..]);
    var f := NumberCodec.CmpToFloat(d.value);
    NumberCodec.WordCanonical(b[1..]);
    NumberCodec.FloatCanonical(d.value);
    assert b == [FLOAT_FLAG] + (NumberCodec.Word(d.value) + d.rest);
    if b == EncodeOne(Float(f)) + d.rest {
      assert b[1..] == NumberCodec.Word(NumberCodec.FloatToCmp(f)) + d.rest;
      NumberCodec.WordRoundTrip(NumberCodec.FloatToCmp(f), d.rest);
    }
  }

  function ReadAll(vs: seq<Value>): seq<Value> { seq(|vs|, k requires 0 <= k < |vs| => Read(vs[k])) }

  /** A whole key is read back. */
  lemma {:induction false} TupleRoundTrip(before: seq<Value>, vs: seq<Value>)
    requires Known(vs)
    ensures DecodeOntoTuple(before, EncodeAll(vs)) == Tuple(before + ReadAll(vs))
    decreases |vs|
  {
    hide EncodeOne, DecodeOne, Read;
    if vs != [] {
      OneRoundTrip(vs[0], EncodeAll(vs[1..]));
      FlagFirst(vs[0]);
      TupleRoundTrip(before + [Read(vs[0])], vs[1..]);
      assert before + ReadAll(vs) == before + [Read(vs[0])] + ReadAll(vs[1..]);
    } else {
      assert before + ReadAll(vs) == before;
    }
  }

  // ---------------------------------------------------------------- cutting (rockredis/memcmp_codec.go:146-176)

  datatype Cut = Piece(data: Bytes, rest: Bytes) | CutErr | OutOfRange

  /** CutOne. A number is taken to be eight bytes long whether or not they are there: cutting
      past the end of the input is `OutOfRange`. */
  method CutOne(b: Bytes) returns (r: Cut)
    ensures r == CutSpec(b)
  {
    if |b| < 1 { return CutErr; }
    var length := 1;
    if b[0] == INT_FLAG || b[0] == FLOAT_FLAG {
      length := length + 8;
    } else if b[0] == BYTES_FLAG {
      var l, ok := BytesCodec.PeekBytes(b[1..]);
      if !ok { return CutErr; }
      length := length + l;
      assert b[length..] == b[1..][l..] && b[..length] == [b[0]] + b[1..][..l];
    } else if b[0] != NIL_FLAG {
      return CutErr;
    }
    r := if length <= |b| then Piece(b[..length], b[length..]) else OutOfRange;
  }

  function CutSpec(b: Bytes): Cut {
    if |b| < 1 then CutErr
    else if b[0] == INT_FLAG || b[0] == FLOAT_FLAG then
      if |b| >= 9 then Piece(b[..9], b[9..]) else OutOfRange
    else if b[0] == BYTES_FLAG then
      var p := BytesCodec.Peeked(b[1..], 0);
      if p.Ok? then Piece([b[0]] + p.data, p.rest) else CutErr
    else if b[0] == NIL_FLAG then Piece(b[..1], b[1..])
    else CutErr
  }

  /** Wherever decoding succeeds, cutting stops at the same place and the piece decodes by itself. */
  lemma CutsWhereDecodeStops(b: Bytes)
    ensures DecodeOne(b).Ok? ==> CutSpec(b).Piece? && CutSpec(b).rest == DecodeOne(b).rest
                                 && b == CutSpec(b).data + CutSpec(b).rest
                                 && DecodeOne(CutSpec(b).data) == Ok([], DecodeOne(b).value)
  {
    hide BytesCodec.Peeked, BytesCodec.DecodeOnto, NumberCodec.FromBigEndian;
    if DecodeOne(b).Ok? {
      assert b == [b[0]] + b[1..];
      if b[0] == BYTES_FLAG {
        StringPieceDecodes(b[1..]);
        var p := BytesCodec.Peeked(b[1..], 0);
        assert ([b[0]] + p.data)[1..] == p.data;
      } else if b[0] != NIL_FLAG {
        assert b[..9][1..] == b[1..][..8] && b[..9][1..][..8] == b[1..][..8];
      }
    }
  }

  lemma StringPieceDecodes(b: Bytes)
    requires BytesCodec.DecodeOnto([], b).Ok?
    ensures var p, d := BytesCodec.Peeked(b, 0), BytesCodec.DecodeOnto([], b);
            && p.Ok? && p.rest == d.rest && b == p.data + p.rest
            && BytesCodec.DecodeOnto([], p.data) == BytesCodec.Ok([], d.data)
  {
    hide BytesCodec.Encoded;
    assert b[0..] == b;
    BytesCodec.PeekFindsEnd([], b, 0);
    var x := BytesCodec.Canonical([], b);
    var p := BytesCodec.Peeked(b, 0);
    SameTail(p.data, BytesCodec.Encoded(x), p.rest);
    BytesCodec.RoundTrip([], x, []);
    assert BytesCodec.Encoded(x) + [] == BytesCodec.Encoded(x) && [] + x == x;
  }

  /** Conversely, cutting does not look inside a string, so what it cuts off decodes only if the
      piece itself does. */
  lemma CutDecodesWithPiece(b: Bytes)
    ensures DecodeOne(b).Ok? <==> CutSpec(b).Piece? && DecodeOne(CutSpec(b).data).Ok?
  {
    hide BytesCodec.Peeked, BytesCodec.DecodeOnto, NumberCodec.FromBigEndian;
    CutsWhereDecodeStops(b);
    if |b| >= 1 && b[0] == BYTES_FLAG && CutSpec(b).Piece? {
      var p := BytesCodec.Peeked(b[1..], 0);
      assert ([b[0]] + p.data)[1..] == p.data;
      if BytesCodec.DecodeOnto([], p.data).Ok? { StringDecodesWithPiece(b[1..]); }
    }
  }

  lemma StringDecodesWithPiece(b: Bytes)
    requires BytesCodec.Peeked(b, 0).Ok? && BytesCodec.DecodeOnto([], BytesCodec.Peeked(b, 0).data).Ok?
    ensures BytesCodec.DecodeOnto([], b).Ok?
  {
    hide BytesCodec.Peeked, BytesCodec.DecodeOnto, BytesCodec.Encoded;
    var p := BytesCodec.Peeked(b, 0);
    var x := BytesCodec.Canonical([], p.data);
    var rest := BytesCodec.DecodeOnto([], p.data).rest;
    BytesCodec.PeekSplits(b, 0);
    BytesCodec.RoundTrip([], x, rest + p.rest);
    assert b == BytesCodec.Encoded(x) + (rest + p.rest);
  }

  /** Cutting disagrees with decoding on exactly these bytes: a string whose last group has a bad
      marker or a bad pad is cut, and a number with fewer than eight bytes is cut past its end. */
  lemma CutDisagrees(b: Bytes)
    ensures CutSpec(b).Piece? && DecodeOne(b).Err? <==>
            |b| >= 1 && b[0] == BYTES_FLAG && exists k: nat :: BytesCodec.EndsAt(b[1..], k) && BytesCodec.BadEnd(b[1..], k)
    ensures CutSpec(b) == OutOfRange <==> |b| >= 1 && b[0] in {INT_FLAG, FLOAT_FLAG} && |b| < 9
    ensures CutSpec(b) == OutOfRange ==> DecodeOne(b).Err?
  {
    hide BytesCodec.Peeked, BytesCodec.DecodeOnto, NumberCodec.FromBigEndian;
    if |b| >= 1 && b[0] == BYTES_FLAG { StringCutDisagrees(b[1..]); }
  }

  lemma StringCutDisagrees(b: Bytes)
    ensures BytesCodec.Peeked(b, 0).Ok? && BytesCodec.DecodeOnto([], b).Err? <==>
            exists k: nat :: BytesCodec.EndsAt(b, k) && BytesCodec.BadEnd(b, k)
  {
    hide BytesCodec.Peeked, BytesCodec.DecodeOnto, BytesCodec.BadEnd;
    if k: nat :| BytesCodec.EndsAt(b, k) && BytesCodec.BadEnd(b, k) {
      BytesCodec.PeekStopsAt(b, 0, k);
      BytesCodec.DecodesUnlessBad([], b, k);
    }
    if BytesCodec.Peeked(b, 0).Ok? {
      var k := BytesCodec.PeekNeedsEnd(b, 0);
      BytesCodec.DecodesUnlessBad([], b, k);
    }
  }

  /** A short number is cut past its end, and a bad group is cut without complaint; decoding
      refuses both. */
  lemma CutIsLenient()
    ensures CutSpec([INT_FLAG]) == OutOfRange && DecodeOne([INT_FLAG]).Err?
    ensures var b := [BYTES_FLAG, 1, 1, 1, 1, 1, 1, 1, 1, 0]; CutSpec(b) == Piece(b, []) && DecodeOne(b).Err?
  {
    var b: Bytes := [BYTES_FLAG, 1, 1, 1, 1, 1, 1, 1, 1, 0];
    var c: Bytes := [1, 1, 1, 1, 1, 1, 1, 1, 0];
    assert b[1..] == c;
    assert c[9..] == [] && c[..9] == c;
    assert BytesCodec.Peeked(c, 0) == BytesCodec.Ok([], c);
    assert [BYTES_FLAG] + c == b;
  }

  lemma SameTail(a: Bytes, b: Bytes, t: Bytes)
    requires a + t == b + t
    ensures a == b
  {
    assert |a| == |b|;
    assert a == (a + t)[..|a|] && b == (b + t)[..|b|];
  }
}
