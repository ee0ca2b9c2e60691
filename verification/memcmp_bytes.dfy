/** Byte strings under the order that the storage engine sorts keys by. */
module ByteOrder {
  type Byte = x: int | 0 <= x < 256
  type Bytes = seq<Byte>

  /** Lexicographic order, a proper prefix first. */
  predicate Less(a: Bytes, b: Bytes) {
    b != [] && (a == [] || a[0] < b[0] || (a[0] == b[0] && Less(a[1..], b[1..])))
  }

  /** The first position where a and b differ; neither is a prefix of the other. */
  ghost predicate DifferAt(a: Bytes, b: Bytes, p: nat) {
    p < |a| && p < |b| && a[..p] == b[..p] && a[p] != b[p]
  }

  /** The first difference decides the order. */
  lemma {:induction false} FirstDifferenceDecides(a: Bytes, b: Bytes, p: nat)
    requires DifferAt(a, b, p)
    ensures Less(a, b) <==> a[p] < b[p]
    decreases p
  {
    if p > 0 {
      assert a[0] == a[..p][0] == b[..p][0] == b[0];
      assert a[1..][..p - 1] == a[..p][1..] && b[1..][..p - 1] == b[..p][1..];
      FirstDifferenceDecides(a[1..], b[1..], p - 1);
    }
  }

  lemma {:induction false} PrefixIsLess(a: Bytes, b: Bytes)
    requires |a| < |b| && a == b[..|a|]
    ensures Less(a, b) && !Less(b, a)
  {
    if a != [] {
      assert a[0] == b[0] && a[1..] == b[1..][..|a| - 1];
      PrefixIsLess(a[1..], b[1..]);
    }
  }

  lemma {:induction false} NotLessItself(a: Bytes)
    ensures !Less(a, a)
  {
    if a != [] { NotLessItself(a[1..]); }
  }

  /** A difference stays the first one whatever follows. */
  lemma DifferWithTails(a: Bytes, r: Bytes, b: Bytes, s: Bytes, p: nat)
    requires DifferAt(a, b, p)
    ensures DifferAt(a + r, b + s, p) && (a + r)[p] == a[p] && (b + s)[p] == b[p]
  {
    assert (a + r)[..p] == a[..p] && (b + s)[..p] == b[..p];
  }

  lemma DifferAfterHead(h: Bytes, a: Bytes, b: Bytes, p: nat)
    requires DifferAt(a, b, p)
    ensures DifferAt(h + a, h + b, |h| + p)
  {
    assert (h + a)[..|h| + p] == h + a[..p] && (h + b)[..|h| + p] == h + b[..p];
  }

  lemma {:induction false} FirstDifference(a: Bytes, b: Bytes) returns (p: nat)
    requires |a| == |b| && a != b
    ensures DifferAt(a, b, p)
  {
    if a[0] != b[0] {
      p := 0;
    } else {
      assert a == [a[0]] + a[1..] && b == [b[0]] + b[1..];
      p := FirstDifference(a[1..], b[1..]);
      DifferAfterHead([a[0]], a[1..], b[1..], p);
      p := p + 1;
    }
  }

  /** Every byte complemented. */
  function Inverted(a: Bytes): (r: Bytes)
    ensures |r| == |a|
  {
    seq(|a|, k requires 0 <= k < |a| => 255 - a[k])
  }

  lemma InvertedTwice(a: Bytes)
    ensures Inverted(Inverted(a)) == a
  {
  }

  lemma InvertedJoins(a: Bytes, b: Bytes)
    ensures Inverted(a + b) == Inverted(a) + Inverted(b)
  {
  }

  /** Complementing keeps the first difference and turns it round. */
  lemma InvertedDiffers(a: Bytes, b: Bytes, p: nat)
    requires DifferAt(a, b, p)
    ensures DifferAt(Inverted(a), Inverted(b), p)
    ensures Inverted(a)[p] < Inverted(b)[p] <==> b[p] < a[p]
  {
    assert Inverted(a)[..p] == Inverted(a[..p]) && Inverted(b)[..p] == Inverted(b[..p]);
  }

  // ---------------------------------------------------------------- rockredis/bytes.go:137-169

  const WORD_SIZE := 8

  /** Complements in place, word by word and then the remaining bytes. */
  method FastReverseBytes(b: array<Byte>)
    modifies b
    ensures b[..] == Inverted(old(b[..]))
  {
    var n := b.Length;
    var w := n / WORD_SIZE;
    for i := 0 to w
      invariant forall k | 0 <= k < n :: b[k] == if k < i * WORD_SIZE then 255 - old(b[k]) else old(b[k])
    {
      forall k | i * WORD_SIZE <= k < (i + 1) * WORD_SIZE { b[k] := 255 - b[k]; }
    }
    for i := w * WORD_SIZE to n
      invariant forall k | 0 <= k < n :: b[k] == if k < i then 255 - old(b[k]) else old(b[k])
    {
      b[i] := 255 - b[i];
    }
  }

  method SafeReverseBytes(b: array<Byte>)
    modifies b
    ensures b[..] == Inverted(old(b[..]))
  {
    for i := 0 to b.Length
      invariant forall k | 0 <= k < b.Length :: b[k] == if k < i then 255 - old(b[k]) else old(b[k])
    {
      b[i] := 255 - b[i];
    }
  }
}

/** The order-preserving encoding of byte strings: rockredis/bytes.go. */
module BytesCodec {
  import opened ByteOrder

  const GROUP := 8
  const MARKER: Byte := 255
  const PAD: Byte := 0

  function Pads(n: nat): Bytes { seq(n, _ => PAD) }

  /** The first group: up to eight bytes padded with zeros, then 255 minus the number of pads. */
  function Group(data: Bytes): Bytes {
    if |data| >= GROUP then data[..GROUP] + [MARKER]
    else data + Pads(GROUP - |data|) + [MARKER - (GROUP - |data|)]
  }

  function Encoded(data: Bytes): Bytes {
    if |data| >= GROUP then Group(data) + Encoded(data[GROUP..]) else Group(data)
  }

  /** What follows the first group. */
  function Rest(x: Bytes): Bytes { if |x| >= GROUP then Encoded(x[GROUP..]) else [] }

  method EncodeBytes(b: Bytes, data: Bytes) returns (result: Bytes)
    ensures result == b + Encoded(data)
  {
    hide Group;
    result := b;
    var dLen, idx := |data|, 0;
    while idx <= dLen
      invariant 0 <= idx <= dLen + GROUP
      invariant b + Encoded(data) == result + if idx <= dLen then Encoded(data[idx..]) else []
    {
      ghost var before, left := result, data[idx..];
      result := AppendGroup(result, data, idx);
      assert left == data[idx..] && before + (Group(left) + Rest(left)) == result + Rest(left);
      if dLen - idx >= GROUP { assert left[GROUP..] == data[idx + GROUP..]; }
      idx := idx + GROUP;
    }
  }

  /** The body of the source's loop. */
  method AppendGroup(b: Bytes, data: Bytes, idx: nat) returns (result: Bytes)
    requires idx <= |data|
    ensures result == b + Group(data[idx..])
  {
    var remain := |data| - idx;
    var padCount := 0;
    if remain >= GROUP {
      result := b + data[idx..idx + GROUP];
    } else {
      padCount := GROUP - remain;
      result := b + data[idx..];
      result := result + Pads(padCount);
    }
    result := result + [MARKER - padCount];
  }

  /** Two different strings: their encodings differ first at a position that orders them the same
      way. In particular no encoding is a prefix of another. */
  lemma {:induction false} EncodedDiffer(x: Bytes, y: Bytes) returns (p: nat)
    requires x != y
    ensures DifferAt(Encoded(x), Encoded(y), p)
    ensures Encoded(x)[p] < Encoded(y)[p] <==> Less(x, y)
    decreases |x|
  {
    if Group(x) == Group(y) {
      SameGroup(x, y);
      p := EncodedDiffer(x[GROUP..], y[GROUP..]);
      DifferAfterHead(Group(x), Encoded(x[GROUP..]), Encoded(y[GROUP..]), p);
      assert Encoded(x)[|Group(x)| + p] == Encoded(x[GROUP..])[p];
      assert Encoded(y)[|Group(x)| + p] == Encoded(y[GROUP..])[p];
      p := p + |Group(x)|;
      SameHead(x, y);
    } else {
      p := FirstDifference(Group(x), Group(y));
      GroupsOrder(x, y, p);
      DifferWithTails(Group(x), Rest(x), Group(y), Rest(y), p);
      assert Encoded(x) == Group(x) + Rest(x) && Encoded(y) == Group(y) + Rest(y);
    }
  }

  lemma GroupHolds(x: Bytes)
    ensures |Group(x)| == GROUP + 1
    ensures Group(x)[GROUP] == if |x| >= GROUP then 255 else 247 + |x|
    ensures if |x| >= GROUP then Group(x)[..GROUP] == x[..GROUP] else Group(x)[..|x|] == x
  {
  }

  lemma SameGroup(x: Bytes, y: Bytes)
    requires Group(x) == Group(y) && x != y
    ensures |x| >= GROUP && |y| >= GROUP && x[..GROUP] == y[..GROUP] && x[GROUP..] != y[GROUP..]
  {
    GroupHolds(x);
    GroupHolds(y);
    if |x| >= GROUP {
      assert x == x[..GROUP] + x[GROUP..] && y == y[..GROUP] + y[GROUP..];
    }
  }

  lemma SameHead(x: Bytes, y: Bytes)
    requires |x| >= GROUP && |y| >= GROUP && x[..GROUP] == y[..GROUP] && x[GROUP..] != y[GROUP..]
    ensures Less(x, y) <==> Less(x[GROUP..], y[GROUP..])
  {
    HeadCancels(x[..GROUP], x[GROUP..], y[GROUP..]);
    assert x == x[..GROUP] + x[GROUP..] && y == y[..GROUP] + y[GROUP..];
  }

  lemma {:induction false} HeadCancels(h: Bytes, a: Bytes, b: Bytes)
    ensures Less(h + a, h + b) <==> Less(a, b)
  {
    if h == [] {
      assert h + a == a && h + b == b;
    } else {
      assert (h + a)[1..] == h[1..] + a && (h + b)[1..] == h[1..] + b;
      HeadCancels(h[1..], a, b);
    }
  }

  lemma GroupsOrder(x: Bytes, y: Bytes, p: nat)
    requires DifferAt(Group(x), Group(y), p)
    ensures Group(x)[p] < Group(y)[p] <==> Less(x, y)
  {
    if p < |x| && p < |y| && p < GROUP {
      assert x[..p] == Group(x)[..p] && y[..p] == Group(y)[..p];
      FirstDifferenceDecides(x, y, p);
    } else if |x| < |y| {
      ShorterGroup(x, y, p);
    } else {
      ShorterGroup(y, x, p);
    }
  }

  /** The shorter string is a prefix of the longer one, and its pads or its marker sort first. */
  lemma ShorterGroup(x: Bytes, y: Bytes, p: nat)
    requires |x| <= |y| && DifferAt(Group(x), Group(y), p) && (|x| <= p || GROUP <= p)
    ensures Group(x)[p] < Group(y)[p] && Less(x, y) && !Less(y, x)
  {
    GroupHolds(x);
    GroupHolds(y);
    assert Group(x)[..p][..|x|] == Group(y)[..p][..|x|];
    PrefixIsLess(x, y);
  }

  /** The layout of a string of n bytes: groups of eight bytes and a marker, one more than there are
      full ones. Byte l of the string is byte l % 8 of group l / 8; what is missing is zero; the marker
      of a full group is 255 and that of the last one says how many bytes it holds. */
  predicate Laid(x: Bytes, e: Bytes) {
    && |e| == 9 * (|x| / 8 + 1)
    && (forall l: nat | l < |x| :: e[9 * (l / 8) + l % 8] == x[l])
    && (forall q: nat | 9 * (|x| / 8) + |x| % 8 <= q < 9 * (|x| / 8) + 8 :: e[q] == 0)
    && (forall g: nat | g < |x| / 8 :: e[9 * g + 8] == 255)
    && e[9 * (|x| / 8) + 8] == 247 + |x| % 8
  }

  lemma {:induction false} LaysOut(x: Bytes)
    ensures Laid(x, Encoded(x))
  {
    var e := Encoded(x);
    if |x| >= GROUP {
      var y, f := x[GROUP..], Encoded(x[GROUP..]);
      LaysOut(y);
      assert e == Group(x) + f && |Group(x)| == 9;
      assert forall l: nat | l < |f| :: e[9 + l] == f[l];
      assert |x| / 8 == |y| / 8 + 1 && |x| % 8 == |y| % 8;
      LaidOneMore(x, y, f, e);
    }
  }

  lemma LaidOneMore(x: Bytes, y: Bytes, f: Bytes, e: Bytes)
    requires |x| >= GROUP && y == x[GROUP..] && Laid(y, f) && e == x[..GROUP] + [MARKER] + f
    ensures Laid(x, e)
  {
    forall l: nat | l < |x| ensures e[9 * (l / 8) + l % 8] == x[l] {
      if l >= 8 {
        var k: nat := l - 8;
        assert l / 8 == k / 8 + 1 && l % 8 == k % 8;
        assert f[9 * (k / 8) + k % 8] == y[k];
      }
    }
    forall q: nat | 9 * (|x| / 8) + |x| % 8 <= q < 9 * (|x| / 8) + 8 ensures e[q] == 0 {
      assert f[q - 9] == 0;
    }
    forall g: nat | g < |x| / 8 ensures e[9 * g + 8] == 255 {
      if g > 0 {
        var h: nat := g - 1;
        assert f[9 * h + 8] == 255;
      }
    }
  }

  // ---------------------------------------------------------------- decoding

  datatype Error = Insufficient | BadMarker | BadPadding | BadFlag
  datatype Decoded = Ok(rest: Bytes, data: Bytes) | Err(error: Error)

  /** Decodes group by group; `data` is what the groups so far held. */
  function DecodeOnto(data: Bytes, b: Bytes): Decoded
    decreases |b|
  {
    if |b| < GROUP + 1 then Err(Insufficient)
    else
      var padCount := MARKER - b[GROUP];
      if padCount > GROUP then Err(BadMarker)
      else if padCount == 0 then DecodeOnto(data + b[..GROUP], b[GROUP + 1..])
      else if b[GROUP - padCount..GROUP] != Pads(padCount) then Err(BadPadding)
      else Ok(b[GROUP + 1..], data + b[..GROUP - padCount])
  }

  function Flip(b: Bytes, reverse: bool): (r: Bytes)
    ensures |r| == |b|
  {
    if reverse then Inverted(b) else b
  }

  /** With `reverse` the input is read as if every byte of it were complemented. */
  function DecodeView(data: Bytes, b: Bytes, reverse: bool): Decoded {
    match DecodeOnto(data, Flip(b, reverse))
    case Ok(rest, d) => Ok(Flip(rest, reverse), d)
    case Err(e) => Err(e)
  }

  function PadByte(reverse: bool): Byte { if reverse then MARKER else PAD }

  predicate Padded(b: Bytes, reverse: bool, from: nat)
    requires |b| >= GROUP
  {
    forall l | from <= l < GROUP :: b[l] == PadByte(reverse)
  }

  /** One group of the input as it is, in terms of the complemented view. */
  lemma ViewOneGroup(data: Bytes, b: Bytes, reverse: bool)
    requires |b| >= GROUP + 1
    ensures var padCount := if reverse then b[GROUP] else MARKER - b[GROUP];
            DecodeView(Flip(data, reverse), b, reverse) ==
              if padCount > GROUP then Err(BadMarker)
              else if padCount == 0 then DecodeView(Flip(data + b[..GROUP], reverse), b[GROUP + 1..], reverse)
              else if !Padded(b, reverse, GROUP - padCount) then Err(BadPadding)
              else Ok(b[GROUP + 1..], Flip(data + b[..GROUP - padCount], reverse))
  {
    var v := Flip(b, reverse);
    var padCount := MARKER - v[GROUP];
    assert v[GROUP + 1..] == Flip(b[GROUP + 1..], reverse);
    if padCount <= GROUP {
      var k := GROUP - padCount;
      assert Flip(data + b[..k], reverse) == Flip(data, reverse) + v[..k];
      assert Flip(v[GROUP + 1..], reverse) == b[GROUP + 1..];
      PaddedIsPads(b, reverse, k);
    }
  }

  lemma PaddedIsPads(b: Bytes, reverse: bool, k: nat)
    requires |b| >= GROUP >= k
    ensures Padded(b, reverse, k) <==> Flip(b, reverse)[k..GROUP] == Pads(GROUP - k)
  {
    var v := Flip(b, reverse);
    if v[k..GROUP] == Pads(GROUP - k) {
      forall l | k <= l < GROUP ensures b[l] == PadByte(reverse) { assert v[l] == v[k..GROUP][l - k]; }
    }
  }

  /** One pass over the input as it is: only the decoded bytes are complemented, at the end. */
  method DecodeBytes(input: Bytes, reverse: bool) returns (r: Decoded)
    ensures r == DecodeView([], input, reverse)
  {
    hide DecodeView, Inverted;
    var b, data: Bytes := input, [];
    assert Flip(data, reverse) == [];
    while true
      invariant DecodeView([], input, reverse) == DecodeView(Flip(data, reverse), b, reverse)
      decreases |b|
    {
      if |b| < GROUP + 1 {
        assert DecodeView(Flip(data, reverse), b, reverse) == Err(Insufficient) by { ViewTooShort(Flip(data, reverse), b, reverse); }
        return Err(Insufficient);
      }
      ViewOneGroup(data, b, reverse);
      var marker := b[GROUP];
      var padCount := if reverse then marker else MARKER - marker;
      if padCount > GROUP { return Err(BadMarker); }
      var group, realGroupSize := b[..GROUP], GROUP - padCount;
      data := data + group[..realGroupSize];
      assert group[..realGroupSize] == b[..realGroupSize];
      if padCount != 0 {
        for k := realGroupSize to GROUP
          invariant forall l | realGroupSize <= l < k :: b[l] == PadByte(reverse)
        {
          if group[k] != PadByte(reverse) { return Err(BadPadding); }
        }
        b := b[GROUP + 1..];
        break;
      }
      b := b[GROUP + 1..];
    }
    if reverse { data := Inverted(data); }
    r := Ok(b, data);
  }

  lemma ViewTooShort(data: Bytes, b: Bytes, reverse: bool)
    requires |b| < GROUP + 1
    ensures DecodeView(data, b, reverse) == Err(Insufficient)
  {
  }

  /** Decoding an encoding followed by anything gives both back. */
  lemma {:induction false} RoundTrip(data: Bytes, x: Bytes, rest: Bytes)
    ensures DecodeOnto(data, Encoded(x) + rest) == Ok(rest, data + x)
    decreases |x|
  {
    var b := Encoded(x) + rest;
    assert b == Group(x) + (Rest(x) + rest);
    assert b[GROUP + 1..] == Rest(x) + rest && b[..GROUP] == Group(x)[..GROUP];
    if |x| >= GROUP {
      assert data + x == (data + x[..GROUP]) + x[GROUP..];
      RoundTrip(data + x[..GROUP], x[GROUP..], rest);
    } else {
      assert b[|x|..GROUP] == Pads(GROUP - |x|) && b[..|x|] == x;
    }
  }

  lemma LastGroup(x: Bytes)
    requires |x| < GROUP
    ensures Encoded(x) == x + Pads(GROUP - |x|) + [MARKER - (GROUP - |x|)]
  {
  }

  lemma FullGroup(g: Bytes, y: Bytes)
    requires |g| == GROUP
    ensures Encoded(g + y) == g + [MARKER] + Encoded(y)
  {
    assert (g + y)[..GROUP] == g && (g + y)[GROUP..] == y;
  }

  /** Whatever decodes is the encoding of the result followed by the rest: there is no second
      encoding of any value. */
  lemma {:induction false} Canonical(data: Bytes, b: Bytes) returns (x: Bytes)
    requires DecodeOnto(data, b).Ok?
    ensures DecodeOnto(data, b).data == data + x
    ensures b == Encoded(x) + DecodeOnto(data, b).rest
    decreases |b|
  {
    hide Encoded, Pads;
    var padCount := MARKER - b[GROUP];
    if padCount == 0 {
      var y := Canonical(data + b[..GROUP], b[GROUP + 1..]);
      x := b[..GROUP] + y;
      FullGroup(b[..GROUP], y);
      assert b == b[..GROUP] + [MARKER] + b[GROUP + 1..];
      assert data + x == (data + b[..GROUP]) + y;
    } else {
      x := b[..GROUP - padCount];
      LastGroup(x);
      assert b == x + b[GROUP - padCount..GROUP] + [b[GROUP]] + b[GROUP + 1..];
    }
  }

  // ---------------------------------------------------------------- the promises of the codec

  /** Encodings sort as the strings do, whatever follows them. */
  lemma EncodedOrder(x: Bytes, r: Bytes, y: Bytes, s: Bytes)
    requires x != y
    ensures Less(Encoded(x) + r, Encoded(y) + s) <==> Less(x, y)
    ensures !(Encoded(x) <= Encoded(y) + s)
  {
    var p := EncodedDiffer(x, y);
    DifferWithTails(Encoded(x), r, Encoded(y), s, p);
    FirstDifferenceDecides(Encoded(x) + r, Encoded(y) + s, p);
    assert (Encoded(y) + s)[p] == Encoded(y)[p];
  }

  /** EncodeBytesDesc complements the encoding, which turns the order round. */
  lemma DescendingOrder(x: Bytes, r: Bytes, y: Bytes, s: Bytes)
    requires x != y
    ensures Less(Inverted(Encoded(x)) + r, Inverted(Encoded(y)) + s) <==> Less(y, x)
  {
    var p := EncodedDiffer(x, y);
    var q := EncodedDiffer(y, x);
    InvertedDiffers(Encoded(x), Encoded(y), p);
    DifferWithTails(Inverted(Encoded(x)), r, Inverted(Encoded(y)), s, p);
    FirstDifferenceDecides(Inverted(Encoded(x)) + r, Inverted(Encoded(y)) + s, p);
    SameDifference(Encoded(x), Encoded(y), p, q);
  }

  lemma SameDifference(a: Bytes, b: Bytes, p: nat, q: nat)
    requires DifferAt(a, b, p) && DifferAt(b, a, q)
    ensures p == q
  {
    AgreeBefore(a, b, p);
    AgreeBefore(b, a, q);
  }

  lemma AgreeBefore(a: Bytes, b: Bytes, p: nat)
    requires DifferAt(a, b, p)
    ensures forall l | 0 <= l < p :: a[l] == b[l]
  {
    forall l | 0 <= l < p ensures a[l] == b[l] { assert a[..p][l] == b[..p][l]; }
  }

  method EncodeBytesDesc(b: Bytes, data: Bytes) returns (result: Bytes)
    ensures result == b + Inverted(Encoded(data))
  {
    var n := |b|;
    var e := EncodeBytes(b, data);
    assert e[n..] == Encoded(data) && e[..n] == b;
    var tail := new Byte[|e| - n](k requires 0 <= k < |e| - n => e[n + k]);
    assert tail[..] == e[n..];
    FastReverseBytes(tail);
    result := e[..n] + tail[..];
  }

  lemma DescendingRoundTrip(x: Bytes, rest: Bytes)
    ensures DecodeView([], Inverted(Encoded(x)) + rest, true) == Ok(rest, x)
  {
    InvertedJoins(Inverted(Encoded(x)), rest);
    InvertedTwice(Encoded(x));
    InvertedTwice(rest);
    RoundTrip([], x, Inverted(rest));
    assert [] + x == x;
  }

  /** And whatever decodes as descending is the complemented encoding of the result. */
  lemma DescendingCanonical(b: Bytes)
    requires DecodeView([], b, true).Ok?
    ensures var d := DecodeView([], b, true); b == Inverted(Encoded(d.data)) + d.rest
  {
    var x := Canonical([], Inverted(b));
    assert [] + x == x;
    var rest := DecodeOnto([], Inverted(b)).rest;
    InvertedTwice(b);
    InvertedJoins(Encoded(x), rest);
  }

  // ---------------------------------------------------------------- rockredis/memcmp_codec.go:178-198

  /** Skips groups up to the first one that is not full; neither markers nor pads are validated. */
  function Peeked(b: Bytes, from: nat): Decoded
    decreases |b| - from
  {
    if |b| < from + GROUP + 1 then Err(Insufficient)
    else if b[from + GROUP] != MARKER then Ok(b[from + GROUP + 1..], b[..from + GROUP + 1])
    else Peeked(b, from + GROUP + 1)
  }

  method PeekBytes(b: Bytes) returns (length: nat, ok: bool)
    ensures ok == Peeked(b, 0).Ok?
    ensures ok ==> length <= |b| && Peeked(b, 0) == Ok(b[length..], b[..length])
  {
    length := 0;
    while true
      invariant Peeked(b, 0) == Peeked(b, length)
      decreases |b| - length
    {
      if |b| < length + GROUP + 1 { return 0, false; }
      var marker := b[length + GROUP];
      length := length + GROUP + 1;
      if MARKER - marker != 0 { break; }
    }
    ok := true;
  }

  /** Wherever decoding succeeds, peeking stops at the same place. */
  lemma {:induction false} PeekFindsEnd(data: Bytes, b: Bytes, from: nat)
    requires from <= |b| && DecodeOnto(data, b[from..]).Ok?
    ensures Peeked(b, from).Ok? && Peeked(b, from).rest == DecodeOnto(data, b[from..]).rest
    ensures b == Peeked(b, from).data + Peeked(b, from).rest
    decreases |b| - from
  {
    var c := b[from..];
    assert c[GROUP] == b[from + GROUP] && c[GROUP + 1..] == b[from + GROUP + 1..];
    if c[GROUP] == MARKER { PeekFindsEnd(data + c[..GROUP], b, from + GROUP + 1); }
  }

  lemma {:induction false} PeekSplits(b: Bytes, from: nat)
    requires from <= |b| && Peeked(b, from).Ok?
    ensures b == Peeked(b, from).data + Peeked(b, from).rest
    decreases |b| - from
  {
    if b[from + GROUP] == MARKER { PeekSplits(b, from + GROUP + 1); }
  }

  // Where peeking is more lenient than decoding, on the bytes alone.

  const STRIDE := GROUP + 1

  /** Group k, of eight bytes and a marker, is the first one whose marker does not say full. */
  predicate EndsAt(b: Bytes, k: nat) {
    && STRIDE * k + STRIDE <= |b| && b[STRIDE * k + GROUP] != MARKER
    && forall j: nat | j < k :: b[STRIDE * j + GROUP] == MARKER
  }

  /** Its marker counts more than eight pads, or one of the pads is not a zero. */
  predicate BadEnd(b: Bytes, k: nat)
    requires STRIDE * k + STRIDE <= |b|
  {
    var marker := STRIDE * k + GROUP;
    b[marker] < MARKER - GROUP || exists l | marker - (MARKER - b[marker]) <= l < marker :: b[l] != PAD
  }

  lemma {:induction false} DecodesUnlessBad(data: Bytes, b: Bytes, k: nat)
    requires EndsAt(b, k)
    ensures DecodeOnto(data, b).Ok? <==> !BadEnd(b, k)
    decreases k
  {
    if k == 0 {
      OneGroupDecodes(data, b);
    } else {
      assert b[STRIDE * 0 + GROUP] == MARKER;
      var c := b[STRIDE..];
      assert forall l: nat | l < |c| :: c[l] == b[STRIDE + l];
      NextGroup(b, c, k);
      DecodesUnlessBad(data + b[..GROUP], c, k - 1);
    }
  }

  lemma OneGroupDecodes(data: Bytes, b: Bytes)
    requires EndsAt(b, 0)
    ensures DecodeOnto(data, b).Ok? <==> !BadEnd(b, 0)
  {
    var padCount := MARKER - b[GROUP];
    if padCount <= GROUP {
      PaddedIsPads(b, false, GROUP - padCount);
    }
  }

  lemma NextGroup(b: Bytes, c: Bytes, k: nat)
    requires k > 0 && EndsAt(b, k) && c == b[STRIDE..]
    ensures EndsAt(c, k - 1) && (BadEnd(c, k - 1) <==> BadEnd(b, k))
  {
    assert c[STRIDE * (k - 1) + GROUP] == b[STRIDE * k + GROUP];
    forall j: nat | j < k - 1 ensures c[STRIDE * j + GROUP] == MARKER {
      assert c[STRIDE * j + GROUP] == b[STRIDE * (j + 1) + GROUP];
    }
    var marker := STRIDE * k + GROUP;
    forall l | marker - GROUP <= l < marker ensures c[l - STRIDE] == b[l] {}
    if l :| marker - (MARKER - b[marker]) <= l < marker && b[marker] >= MARKER - GROUP && b[l] != PAD {
      assert c[l - STRIDE] != PAD;
    }
    if l :| marker - STRIDE - (MARKER - b[marker]) <= l < marker - STRIDE && b[marker] >= MARKER - GROUP && c[l] != PAD {
      assert b[l + STRIDE] == c[l];
    }
  }

  lemma PeekOne(b: Bytes, from: nat)
    ensures |b| < from + GROUP + 1 ==> Peeked(b, from).Err?
    ensures |b| >= from + GROUP + 1 ==>
              Peeked(b, from) == if b[from + GROUP] != MARKER then Ok(b[from + GROUP + 1..], b[..from + GROUP + 1])
                                 else Peeked(b, from + GROUP + 1)
  {
  }

  lemma {:induction false} PeekStopsAt(b: Bytes, j: nat, k: nat)
    requires EndsAt(b, k) && j <= k
    ensures Peeked(b, STRIDE * j) == Ok(b[STRIDE * k + STRIDE..], b[..STRIDE * k + STRIDE])
    decreases k - j
  {
    hide Peeked;
    PeekOne(b, STRIDE * j);
    if j < k {
      assert b[STRIDE * j + GROUP] == MARKER && STRIDE * (j + 1) == STRIDE * j + GROUP + 1;
      PeekStopsAt(b, j + 1, k);
    }
  }

  ghost predicate FullUpTo(b: Bytes, j: nat) {
    forall i: nat | i < j :: STRIDE * i + GROUP < |b| && b[STRIDE * i + GROUP] == MARKER
  }

  lemma {:induction false} PeekNeedsEnd(b: Bytes, j: nat) returns (k: nat)
    requires Peeked(b, STRIDE * j).Ok? && FullUpTo(b, j)
    ensures EndsAt(b, k)
    decreases |b| - STRIDE * j
  {
    hide Peeked;
    PeekOne(b, STRIDE * j);
    k := j;
    if b[STRIDE * j + GROUP] == MARKER {
      assert STRIDE * (j + 1) == STRIDE * j + GROUP + 1;
      assert FullUpTo(b, j + 1);
      k := PeekNeedsEnd(b, j + 1);
    }
  }
}
