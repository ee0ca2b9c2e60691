/** Fixed-width encodings that sort as the numbers do: rockredis/number.go. Machine words are
    integers in range; the bit operations on the sign bit are written out. */
module NumberCodec {
  import opened ByteOrder

  const TWO63 := 0x8000_0000_0000_0000
  const TWO64 := 0x1_0000_0000_0000_0000
  const WIDTH: nat := 8

  type UInt64 = x: int | 0 <= x < 0x1_0000_0000_0000_0000
  type Int64 = x: int | -0x8000_0000_0000_0000 <= x < 0x8000_0000_0000_0000

  function Not(u: UInt64): UInt64 { TWO64 - 1 - u }

  // ---------------------------------------------------------------- big-endian words

  function Pow256(n: nat): nat { if n == 0 then 1 else 256 * Pow256(n - 1) }

  function BigEndian(u: nat, n: nat): (b: Bytes)
    ensures |b| == n
  {
    if n == 0 then [] else BigEndian(u / 256, n - 1) + [u % 256]
  }

  function FromBigEndian(b: Bytes): nat {
    if b == [] then 0 else 256 * FromBigEndian(b[..|b| - 1]) + b[|b| - 1]
  }

  lemma {:induction false} BigEndianBack(u: nat, n: nat)
    requires u < Pow256(n)
    ensures FromBigEndian(BigEndian(u, n)) == u
  {
    if n > 0 {
      assert BigEndian(u, n)[..n - 1] == BigEndian(u / 256, n - 1);
      BigEndianBack(u / 256, n - 1);
    }
  }

  lemma {:induction false} BigEndianOnly(b: Bytes)
    ensures FromBigEndian(b) < Pow256(|b|) && BigEndian(FromBigEndian(b), |b|) == b
  {
    if b != [] {
      BigEndianOnly(b[..|b| - 1]);
      var high, low := FromBigEndian(b[..|b| - 1]), b[|b| - 1];
      assert (256 * high + low) / 256 == high && (256 * high + low) % 256 == low;
      assert b == b[..|b| - 1] + [low];
    }
  }

  /** Different words differ first at a byte that orders them the same way. */
  lemma {:induction false} BigEndianDiffer(u: nat, v: nat, n: nat) returns (p: nat)
    requires u != v && u < Pow256(n) && v < Pow256(n)
    ensures DifferAt(BigEndian(u, n), BigEndian(v, n), p)
    ensures BigEndian(u, n)[p] < BigEndian(v, n)[p] <==> u < v
  {
    if u / 256 == v / 256 {
      p := n - 1;
      assert BigEndian(u, n)[..p] == BigEndian(v, n)[..p];
    } else {
      p := BigEndianDiffer(u / 256, v / 256, n - 1);
      DifferWithTails(BigEndian(u / 256, n - 1), [u % 256], BigEndian(v / 256, n - 1), [v % 256], p);
    }
  }

  lemma {:induction false} BigEndianNot(u: nat, n: nat)
    requires u < Pow256(n)
    ensures BigEndian(Pow256(n) - 1 - u, n) == Inverted(BigEndian(u, n))
  {
    if n > 0 {
      var w := Pow256(n) - 1 - u;
      assert w == 256 * (Pow256(n - 1) - 1 - u / 256) + (255 - u % 256);
      assert w / 256 == Pow256(n - 1) - 1 - u / 256 && w % 256 == 255 - u % 256;
      BigEndianNot(u / 256, n - 1);
      InvertedJoins(BigEndian(u / 256, n - 1), [u % 256]);
    }
  }

  lemma WordRange()
    ensures Pow256(WIDTH) == TWO64
  {
    assert Pow256(2) == 65536;
    assert Pow256(4) == 256 * (256 * Pow256(2));
    assert Pow256(6) == 256 * (256 * Pow256(4));
    assert Pow256(8) == 256 * (256 * Pow256(6));
  }

  function Word(u: UInt64): Bytes { BigEndian(u, WIDTH) }

  /** Both orders at once: words sort as their values do, complemented words the other way round,
      whatever follows. */
  lemma WordOrder(u: UInt64, r: Bytes, v: UInt64, s: Bytes)
    requires u != v
    ensures Less(Word(u) + r, Word(v) + s) <==> u < v
    ensures Less(Word(Not(u)) + r, Word(Not(v)) + s) <==> v < u
  {
    var p := WordDiffer(u, v);
    DifferWithTails(Word(u), r, Word(v), s, p);
    FirstDifferenceDecides(Word(u) + r, Word(v) + s, p);
    var q := WordDiffer(Not(u), Not(v));
    DifferWithTails(Word(Not(u)), r, Word(Not(v)), s, q);
    FirstDifferenceDecides(Word(Not(u)) + r, Word(Not(v)) + s, q);
  }

  lemma WordDiffer(u: UInt64, v: UInt64) returns (p: nat)
    requires u != v
    ensures DifferAt(Word(u), Word(v), p) && (Word(u)[p] < Word(v)[p] <==> u < v)
  {
    WordRange();
    p := BigEndianDiffer(u, v, WIDTH);
  }

  /** The descending form is the complement of the ascending one. */
  lemma WordNot(u: UInt64)
    ensures Word(Not(u)) == Inverted(Word(u))
  {
    WordRange();
    BigEndianNot(u, WIDTH);
  }

  datatype DecodedWord = Ok(rest: Bytes, value: UInt64) | Short

  /** DecodeUint. */
  function DecodeWord(b: Bytes): DecodedWord {
    if |b| < WIDTH then Short
    else
      WordRange();
      BigEndianOnly(b[..WIDTH]);
      Ok(b[WIDTH..], FromBigEndian(b[..WIDTH]))
  }

  lemma WordRoundTrip(u: UInt64, rest: Bytes)
    ensures DecodeWord(Word(u) + rest) == Ok(rest, u)
  {
    WordRange();
    BigEndianBack(u, WIDTH);
    assert (Word(u) + rest)[..WIDTH] == Word(u);
  }

  lemma WordCanonical(b: Bytes)
    requires DecodeWord(b).Ok?
    ensures b == Word(DecodeWord(b).value) + DecodeWord(b).rest
  {
    BigEndianOnly(b[..WIDTH]);
    assert b == b[..WIDTH] + b[WIDTH..];
  }

  // ---------------------------------------------------------------- integers (rockredis/number.go:24-74)

  /** The two's-complement word of v. */
  function AsUint(v: Int64): UInt64 { if v < 0 then v + TWO64 else v }
  function AsInt(u: UInt64): Int64 { if u >= TWO63 then u - TWO64 else u }

  /** Exclusive or with the sign mask. */
  function FlipSign(u: UInt64): UInt64 { if u >= TWO63 then u - TWO63 else u + TWO63 }

  function IntToCmp(v: Int64): UInt64 { FlipSign(AsUint(v)) }
  function CmpToInt(u: UInt64): Int64 { AsInt(FlipSign(u)) }

  /** The comparable word keeps order and loses nothing, in either direction. */
  lemma IntCmp(v: Int64, w: Int64, u: UInt64)
    ensures IntToCmp(v) < IntToCmp(w) <==> v < w
    ensures CmpToInt(IntToCmp(v)) == v && IntToCmp(CmpToInt(u)) == u
  {
  }

  // ---------------------------------------------------------------- floats (rockredis/number.go:117-160)

  const TWO52 := 0x10_0000_0000_0000
  const INFINITY := 0x7FF0_0000_0000_0000
  const NEG_ZERO: UInt64 := 0x8000_0000_0000_0000

  function Negative(f: UInt64): bool { f >= TWO63 }
  function Magnitude(f: UInt64): nat { f % TWO63 }
  predicate IsNaN(f: UInt64) { Magnitude(f) > INFINITY }

  function Pow2(n: nat): nat { if n == 0 then 1 else 2 * Pow2(n - 1) }

  /** The number a magnitude stands for, in units of the smallest positive double (2 to the power
      -1074): the IEEE 754 reading of its exponent and fraction. Infinity lies above every finite one. */
  function Scaled(m: nat): nat {
    var exponent, fraction := m / TWO52, m % TWO52;
    if exponent == 0 then fraction else (TWO52 + fraction) * Pow2(exponent - 1)
  }

  /** The number a double stands for, if it is one. */
  function Value(f: UInt64): int { if Negative(f) then 0 - Scaled(Magnitude(f)) else Scaled(Magnitude(f)) }

  /** The comparison f >= 0: false for a NaN, true for -0.0. */
  predicate AtLeastZero(f: UInt64) { !IsNaN(f) && Value(f) >= 0 }

  function SetSign(u: UInt64): UInt64 { if u >= TWO63 then u else u + TWO63 }

  function FloatToCmp(f: UInt64): UInt64 { if AtLeastZero(f) then SetSign(f) else Not(f) }
  function CmpToFloat(u: UInt64): UInt64 { if u >= TWO63 then u - TWO63 else Not(u) }

  lemma {:induction false} Pow2Positive(n: nat)
    ensures Pow2(n) >= 1
  {
    if n > 0 { Pow2Positive(n - 1); }
  }

  lemma {:induction false} Pow2Grows(a: nat, b: nat)
    requires a < b
    ensures 2 * Pow2(a) <= Pow2(b)
  {
    Pow2Positive(b - 1);
    if a < b - 1 { Pow2Grows(a, b - 1); }
  }

  lemma ProductGrows(a: nat, b: nat, x: nat, y: nat)
    requires a <= b && x <= y
    ensures a * x <= b * y
  {
  }

  lemma ProductGrowsStrictly(a: nat, b: nat, x: nat)
    requires a < b && x >= 1
    ensures a * x < b * x
  {
  }

  /** The number grows with the bits. */
  lemma ScaledGrows(m: nat, n: nat)
    requires m < n
    ensures Scaled(m) < Scaled(n)
  {
    var e, f, g, h := m / TWO52, m % TWO52, n / TWO52, n % TWO52;
    if g > 0 {
      Pow2Positive(g - 1);
      if e == g {
        ProductGrowsStrictly(TWO52 + f, TWO52 + h, Pow2(g - 1));
      } else if e == 0 {
        ProductGrows(TWO52, TWO52 + h, 1, Pow2(g - 1));
      } else {
        Pow2Positive(e - 1);
        ProductGrowsStrictly(TWO52 + f, 2 * TWO52, Pow2(e - 1));
        Pow2Grows(e - 1, g - 1);
        ProductGrows(TWO52, TWO52 + h, 2 * Pow2(e - 1), Pow2(g - 1));
      }
    }
  }

  lemma ZeroIsZero(f: UInt64)
    ensures Value(f) == 0 <==> Magnitude(f) == 0
    ensures AtLeastZero(f) <==> !IsNaN(f) && (!Negative(f) || f == NEG_ZERO)
  {
    if Magnitude(f) > 0 { ScaledGrows(0, Magnitude(f)); }
  }

  /** Doubles that are numbers sort by their value, and only the two zeros coincide. */
  lemma FloatCmp(f: UInt64, g: UInt64)
    requires !IsNaN(f) && !IsNaN(g)
    ensures FloatToCmp(f) < FloatToCmp(g) <==> Value(f) < Value(g)
    ensures FloatToCmp(f) == FloatToCmp(g) <==> Value(f) == Value(g)
  {
    hide Scaled;
    ZeroIsZero(f);
    ZeroIsZero(g);
    if Magnitude(f) < Magnitude(g) { ScaledGrows(Magnitude(f), Magnitude(g)); }
    if Magnitude(g) < Magnitude(f) { ScaledGrows(Magnitude(g), Magnitude(f)); }
  }

  /** -0.0 comes back as 0.0, and a NaN without a sign bit does not come back; everything else does. */
  lemma FloatRoundTrip(f: UInt64)
    ensures CmpToFloat(FloatToCmp(f)) == f <==> f != NEG_ZERO && !(IsNaN(f) && !Negative(f))
    ensures CmpToFloat(FloatToCmp(NEG_ZERO)) == 0
  {
    ZeroIsZero(f);
    ZeroIsZero(NEG_ZERO);
  }

  /** A word is the encoding of what it decodes to, except in the same two cases. */
  lemma FloatCanonical(u: UInt64)
    ensures var f := CmpToFloat(u);
            FloatToCmp(f) == u <==> f != NEG_ZERO && !(IsNaN(f) && !Negative(f))
  {
    ZeroIsZero(CmpToFloat(u));
  }

  /** A NaN shares its encoding with a number exactly if it has no sign bit; that number, the
      complement of its other bits, is not negative. */
  lemma NaNCollides(f: UInt64)
    requires IsNaN(f)
    ensures !Negative(f) <==> exists g: UInt64 :: !IsNaN(g) && FloatToCmp(g) == FloatToCmp(f)
    ensures !Negative(f) ==> var g: UInt64 := TWO63 - 1 - f; !IsNaN(g) && Value(g) >= 0 && FloatToCmp(f) == FloatToCmp(g)
  {
    if !Negative(f) {
      ZeroIsZero(TWO63 - 1 - f);
    } else if g: UInt64 :| !IsNaN(g) && FloatToCmp(g) == FloatToCmp(f) {
      ZeroIsZero(g);
      assert false;
    }
  }

  // ---------------------------------------------------------------- descending forms (rockredis/number.go:41-71, 84-114, 149-163)

  function IntDesc(v: Int64): Bytes { Word(Not(IntToCmp(v))) }
  function FloatDesc(f: UInt64): Bytes { Word(Not(FloatToCmp(f))) }

  datatype DecodedInt = IntRead(rest: Bytes, v: Int64) | IntShort
  datatype DecodedFloat = FloatRead(rest: Bytes, f: UInt64) | FloatShort

  function DecodeIntDesc(b: Bytes): DecodedInt {
    var d := DecodeWord(b);
    if d.Ok? then IntRead(d.rest, CmpToInt(Not(d.value))) else IntShort
  }

  function DecodeFloatDesc(b: Bytes): DecodedFloat {
    var d := DecodeWord(b);
    if d.Ok? then FloatRead(d.rest, CmpToFloat(Not(d.value))) else FloatShort
  }

  /** The larger integer sorts first, whatever follows. */
  lemma IntDescOrder(v: Int64, r: Bytes, w: Int64, s: Bytes)
    requires v != w
    ensures Less(IntDesc(v) + r, IntDesc(w) + s) <==> w < v
  {
    WordOrder(IntToCmp(v), r, IntToCmp(w), s);
  }

  /** Integers are read back, and there is only one encoding of each. */
  lemma IntDescRoundTrip(v: Int64, rest: Bytes, b: Bytes)
    ensures DecodeIntDesc(IntDesc(v) + rest) == IntRead(rest, v)
    ensures var d := DecodeIntDesc(b); d.IntRead? ==> b == IntDesc(d.v) + d.rest
  {
    WordRoundTrip(Not(IntToCmp(v)), rest);
    if DecodeWord(b).Ok? { WordCanonical(b); }
  }

  /** The larger number sorts first, whatever follows; the two zeros have one encoding. */
  lemma FloatDescOrder(f: UInt64, r: Bytes, g: UInt64, s: Bytes)
    requires !IsNaN(f) && !IsNaN(g)
    ensures Value(f) != Value(g) ==> (Less(FloatDesc(f) + r, FloatDesc(g) + s) <==> Value(g) < Value(f))
    ensures FloatDesc(f) == FloatDesc(g) <==> Value(f) == Value(g)
  {
    hide Value, FloatToCmp;
    FloatCmp(f, g);
    if FloatToCmp(f) != FloatToCmp(g) {
      WordOrder(FloatToCmp(f), r, FloatToCmp(g), s);
      var p := WordDiffer(Not(FloatToCmp(f)), Not(FloatToCmp(g)));
    }
  }

  /** Read back exactly unless it is -0.0 or a NaN without sign bit, as in the ascending form; and a
      byte string is the encoding of what it is read as, with the same exceptions. */
  lemma FloatDescRoundTrip(f: UInt64, rest: Bytes, b: Bytes)
    ensures var d := DecodeFloatDesc(FloatDesc(f) + rest);
            d.FloatRead? && d.rest == rest && (d.f == f <==> f != NEG_ZERO && !(IsNaN(f) && !Negative(f)))
    ensures var d := DecodeFloatDesc(b);
            d.FloatRead? ==> (b == FloatDesc(d.f) + d.rest <==> d.f != NEG_ZERO && !(IsNaN(d.f) && !Negative(d.f)))
  {
    hide FloatToCmp, CmpToFloat;
    WordRoundTrip(Not(FloatToCmp(f)), rest);
    FloatRoundTrip(f);
    var d := DecodeWord(b);
    if d.Ok? {
      WordCanonical(b);
      var g := CmpToFloat(Not(d.value));
      FloatCanonical(Not(d.value));
      if b == FloatDesc(g) + d.rest { WordRoundTrip(Not(FloatToCmp(g)), d.rest); }
    }
  }
}
