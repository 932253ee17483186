/**
 * The table-driven CRC-32 of apps/dashboard/lib/zip.ts, against the bit-serial
 * register that section 4.4.7 of the PKWARE APPNOTE describes.
 *
 * All 32-bit arithmetic of the source (`^`, `>>> 1`, `>>> 8`, the final `>>> 0`)
 * is arithmetic on `bv32`; nothing outside this module uses bit-vectors. The
 * inductions are carried out over an arbitrary register type, so that the only
 * bit-level facts are those about a single shift.
 */
module Crc32 {
  import opened Bytes

  const ALL_ONES: bv32 := 0xFFFF_FFFF

  // ---- The bit-serial reference ------------------------------------------------

  function Iterate<T>(f: T -> T, x: T, k: nat): T
    decreases k
  {
    if k == 0 then x else Iterate(f, f(x), k - 1)
  }

  /** A register takes in the next `k` message bits: mix one bit in, step, go on to the rest. */
  function Feed<T>(step: T -> T, mix: (T, T) -> T, low: T -> T, rest: T -> T, r: T, b: T, k: nat): T
    decreases k
  {
    if k == 0 then r else Feed(step, mix, low, rest, step(mix(r, low(b))), rest(b), k - 1)
  }

  /** One shift of the reflected register, with the polynomial 0xEDB88320. */
  function Shift(r: bv32): bv32 {
    if r & 1 == 1 then 0xEDB88320 ^ (r >> 1) else r >> 1
  }

  function Xor(x: bv32, y: bv32): bv32 { x ^ y }
  function LowBit(x: bv32): bv32 { x & 1 }
  function Half(x: bv32): bv32 { x >> 1 }

  /** A byte as the low bits of a register. */
  function Bits(b: byte): bv32 { PackAll(Digits(b, 8)) }

  /** The `k` low binary digits of a number, least significant first. */
  function Digits(n: nat, k: nat): (d: seq<bool>)
    ensures |d| == k
    decreases k
  {
    if k == 0 then [] else [n % 2 == 1] + Digits(n / 2, k - 1)
  }

  function PackAll(d: seq<bool>): bv32
    requires |d| == 8
  {
    Pack(d[0], d[1], d[2], d[3], d[4], d[5], d[6], d[7])
  }

  function Pack(b0: bool, b1: bool, b2: bool, b3: bool, b4: bool, b5: bool, b6: bool, b7: bool): bv32 {
    (if b0 then 1 else 0) | (if b1 then 2 else 0) | (if b2 then 4 else 0) | (if b3 then 8 else 0)
    | (if b4 then 16 else 0) | (if b5 then 32 else 0) | (if b6 then 64 else 0) | (if b7 then 128 else 0)
  }

  /** The eight bits of a byte enter the register one at a time, least significant first. */
  function FeedByte(r: bv32, bits: bv32): bv32 {
    Feed(Shift, Xor, LowBit, Half, r, bits, 8)
  }

  function FeedOne(r: bv32, b: byte): bv32 { FeedByte(r, Bits(b)) }

  function Fold<R, T>(f: (R, T) -> R, r: R, xs: seq<T>): R {
    if xs == [] then r else f(Fold(f, r, xs[..|xs| - 1]), xs[|xs| - 1])
  }

  function FeedBytes(r: bv32, data: seq<byte>): bv32 { Fold(FeedOne, r, data) }

  /** The number binary digits spell, least significant first. */
  function ValueOf(d: seq<bool>): nat { if d == [] then 0 else (if d[0] then 1 else 0) + 2 * ValueOf(d[1..]) }

  function Pow2(k: nat): nat { if k == 0 then 1 else 2 * Pow2(k - 1) }

  lemma {:induction false} ValueBound(d: seq<bool>)
    ensures ValueOf(d) < Pow2(|d|)
  {
    if d != [] { ValueBound(d[1..]); }
  }

  lemma ByteBound(d: seq<bool>)
    requires |d| == 8
    ensures ValueOf(d) < 256
  {
    ValueBound(d);
    assert Pow2(8) == 256;
  }

  /** The binary digits of a register's low byte. */
  function LowDigits(x: bv32): (d: seq<bool>)
    ensures |d| == 8
  {
    [x & 1 != 0, x & 2 != 0, x & 4 != 0, x & 8 != 0, x & 16 != 0, x & 32 != 0, x & 64 != 0, x & 128 != 0]
  }

  function LowByte(x: bv32): byte {
    ByteBound(LowDigits(x));
    ValueOf(LowDigits(x))
  }

  /** The four bytes of a register, lowest first. */
  function WordBytes(x: bv32): seq<byte> { FourLow(LowByte, Above, x) }

  function FourLow<R, B>(low: R -> B, above: R -> R, x: R): (b: seq<B>)
    ensures |b| == 4
  {
    [low(x), low(above(x)), low(above(above(x))), low(above(above(above(x))))]
  }

  function Above(x: bv32): bv32 { x >> 8 }

  /** A register as an unsigned number. */
  function Unsigned(x: bv32): nat { FromBytes(WordBytes(x)) }

  function FromBytes(b: seq<byte>): nat
    requires |b| == 4
  {
    b[0] as int + 0x100 * b[1] as int + 0x1_0000 * b[2] as int + 0x100_0000 * b[3] as int
  }

  /** The CRC-32 of `data`: start from all ones, feed every bit, complement. */
  function Crc(data: seq<byte>): nat { Unsigned(FeedBytes(ALL_ONES, data) ^ ALL_ONES) }

  // ---- Bit-level facts about one shift -----------------------------------------

  lemma XorShift(x: bv32, y: bv32)
    ensures ((x ^ y) & 1 == 1) == ((x & 1 == 1) != (y & 1 == 1))
    ensures (x ^ y) >> 1 == (x >> 1) ^ (y >> 1)
  {
  }

  lemma XorMoves(x: bv32, y: bv32, p: bv32)
    ensures p ^ (x ^ y) == (p ^ x) ^ y == x ^ (p ^ y)
    ensures x ^ y == (p ^ x) ^ (p ^ y)
  {
  }

  lemma ShiftIsLinear(x: bv32, y: bv32)
    ensures Shift(Xor(x, y)) == Xor(Shift(x), Shift(y))
  {
    XorShift(x, y);
    XorMoves(x >> 1, y >> 1, 0xEDB88320);
  }

  /** All bits but the lowest. */
  function HighBits(x: bv32): bv32 { x & 0xFFFF_FFFE }

  lemma LowBitSplits(r: bv32, b: bv32)
    ensures Xor(r, b) == Xor(Xor(r, LowBit(b)), HighBits(b))
  {
  }

  lemma ShiftEven(h: bv32)
    requires h & 1 == 0
    ensures Shift(h) == h >> 1
  {
  }

  lemma ShiftHigh(b: bv32)
    ensures Shift(HighBits(b)) == Half(b)
  {
  }

  lemma Recombine<T>(f: T -> T, mix: (T, T) -> T, x: T, low: T, high: T, out: T)
    requires x == mix(low, high) && f(high) == out
    requires f(mix(low, high)) == mix(f(low), f(high))
    ensures f(x) == mix(f(low), out)
  {
  }

  lemma ShiftSplitsHigh(r: bv32, b: bv32)
    ensures Shift(Xor(r, b)) == Xor(Shift(Xor(r, LowBit(b))), Shift(HighBits(b)))
  {
    LowBitSplits(r, b);
    ShiftIsLinear(Xor(r, LowBit(b)), HighBits(b));
  }

  lemma ShiftSplits(r: bv32, b: bv32)
    ensures Shift(Xor(r, b)) == Xor(Shift(Xor(r, LowBit(b))), Half(b))
  {
    ShiftSplitsHigh(r, b);
    ShiftHigh(b);
  }

  lemma ShiftLosesNothing(d: bv32)
    requires Shift(d) == 0
    ensures d == 0
  {
    assert 0xEDB88320 ^ (d >> 1) != 0;
  }

  // ---- Iteration, over any register type ---------------------------------------

  lemma {:induction false} IterateIsLinear<T(!new)>(f: T -> T, mix: (T, T) -> T, x: T, y: T, k: nat)
    requires forall a, b :: f(mix(a, b)) == mix(f(a), f(b))
    ensures Iterate(f, mix(x, y), k) == mix(Iterate(f, x, k), Iterate(f, y, k))
    decreases k
  {
    if k > 0 { IterateIsLinear(f, mix, f(x), f(y), k - 1); }
  }

  /** Feeding bits one at a time is mixing them all in first, up to the bits not yet fed. */
  lemma {:induction false} FeedIsIterate<T(!new)>(
    step: T -> T, mix: (T, T) -> T, low: T -> T, rest: T -> T, r: T, b: T, k: nat)
    requires forall x, y :: step(mix(x, y)) == mix(step(mix(x, low(y))), rest(y))
    ensures Iterate(step, mix(r, b), k)
         == mix(Feed(step, mix, low, rest, r, b, k), Iterate(rest, b, k))
    decreases k
  {
    if k > 0 { FeedIsIterate(step, mix, low, rest, step(mix(r, low(b))), rest(b), k - 1); }
  }

  // ---- One table step is eight bit steps ---------------------------------------

  function Shifts8(r: bv32): bv32 { Iterate(Shift, r, 8) }

  lemma Unroll8(f: bv32 -> bv32, x: bv32)
    ensures Iterate(f, x, 8) == f(f(f(f(f(f(f(f(x))))))))
  {
    assert Iterate(f, x, 8) == Iterate(f, f(f(f(f(x)))), 4);
  }

  lemma HalvedEightTimes(b: bv32)
    ensures Iterate(Half, b, 8) == b >> 8
  {
    Unroll8(Half, b);
    assert b >> 1 >> 1 >> 1 >> 1 >> 1 >> 1 >> 1 >> 1 == b >> 8;
  }

  lemma HighBytesShiftOut(h: bv32)
    requires h & 0xFF == 0
    ensures Shifts8(h) == h >> 8
  {
    assert (h >> 1) & 1 == 0 && (h >> 2) & 1 == 0 && (h >> 3) & 1 == 0;
    assert (h >> 4) & 1 == 0 && (h >> 5) & 1 == 0 && (h >> 6) & 1 == 0 && (h >> 7) & 1 == 0;
    assert h >> 1 >> 1 == h >> 2 && h >> 2 >> 1 == h >> 3 && h >> 3 >> 1 == h >> 4;
    assert h >> 4 >> 1 == h >> 5 && h >> 5 >> 1 == h >> 6 && h >> 6 >> 1 == h >> 7 && h >> 7 >> 1 == h >> 8;
    Unroll8(Shift, h);
    ShiftEven(h); ShiftEven(h >> 1); ShiftEven(h >> 2); ShiftEven(h >> 3);
    ShiftEven(h >> 4); ShiftEven(h >> 5); ShiftEven(h >> 6); ShiftEven(h >> 7);
  }

  lemma Shifts8IsLinear(x: bv32, y: bv32)
    ensures Shifts8(Xor(x, y)) == Xor(Shifts8(x), Shifts8(y))
  {
    forall a, b ensures Shift(Xor(a, b)) == Xor(Shift(a), Shift(b)) { ShiftIsLinear(a, b); }
    IterateIsLinear(Shift, Xor, x, y, 8);
  }

  lemma FeedByteIsShifts8(r: bv32, bits: bv32)
    requires bits <= 0xFF
    ensures FeedByte(r, bits) == Shifts8(Xor(r, bits))
  {
    forall x, y ensures Shift(Xor(x, y)) == Xor(Shift(Xor(x, LowBit(y))), Half(y)) { ShiftSplits(x, y); }
    FeedIsIterate(Shift, Xor, LowBit, Half, r, bits, 8);
    HalvedEightTimes(bits);
    XorNothing(FeedByte(r, bits), bits);
  }

  lemma XorNothing(r: bv32, bits: bv32)
    requires bits <= 0xFF
    ensures r ^ (bits >> 8) == r
  {
  }

  lemma LowByteSplits(r: bv32, bits: bv32)
    requires bits <= 0xFF
    ensures var x := r ^ bits;
      x == (x & 0xFF) ^ (x & 0xFFFF_FF00) && x & 0xFFFF_FF00 & 0xFF == 0 && (x & 0xFFFF_FF00) >> 8 == r >> 8
  {
  }

  /** For every register and every byte, the table step does what eight message bits do. */
  lemma TableStep(r: bv32, bits: bv32)
    requires bits <= 0xFF
    ensures Xor(Shifts8((r ^ bits) & 0xFF), r >> 8) == FeedByte(r, bits)
  {
    var x := r ^ bits;
    LowByteSplits(r, bits);
    Shifts8IsLinear(x & 0xFF, x & 0xFFFF_FF00);
    HighBytesShiftOut(x & 0xFFFF_FF00);
    Recombine(Shifts8, Xor, x, x & 0xFF, x & 0xFFFF_FF00, r >> 8);
    FeedByteIsShifts8(r, bits);
  }

  lemma PackHolds(b0: bool, b1: bool, b2: bool, b3: bool, b4: bool, b5: bool, b6: bool, b7: bool)
    ensures var p := Pack(b0, b1, b2, b3, b4, b5, b6, b7);
      && p <= 0xFF
      && (p & 1 != 0) == b0 && (p & 2 != 0) == b1 && (p & 4 != 0) == b2 && (p & 8 != 0) == b3
      && (p & 16 != 0) == b4 && (p & 32 != 0) == b5 && (p & 64 != 0) == b6 && (p & 128 != 0) == b7
  {
  }

  lemma PackIsInjective(d: seq<bool>, e: seq<bool>)
    requires |d| == |e| == 8
    requires Pack(d[0], d[1], d[2], d[3], d[4], d[5], d[6], d[7])
          == Pack(e[0], e[1], e[2], e[3], e[4], e[5], e[6], e[7])
    ensures d == e
  {
    PackHolds(d[0], d[1], d[2], d[3], d[4], d[5], d[6], d[7]);
    PackHolds(e[0], e[1], e[2], e[3], e[4], e[5], e[6], e[7]);
  }

  lemma {:induction false} SameDigits(x: nat, y: nat, k: nat)
    requires Digits(x, k) == Digits(y, k) && x < Pow2(k) && y < Pow2(k)
    ensures x == y
    decreases k
  {
    if k > 0 {
      assert Digits(x, k)[1..] == Digits(x / 2, k - 1) && Digits(y, k)[1..] == Digits(y / 2, k - 1);
      assert Digits(x, k)[0] == Digits(y, k)[0];
      SameDigits(x / 2, y / 2, k - 1);
    }
  }

  lemma BitsOfByte(b: byte)
    ensures Bits(b) <= 0xFF
  {
    var d := Digits(b, 8);
    PackHolds(d[0], d[1], d[2], d[3], d[4], d[5], d[6], d[7]);
  }

  lemma BitsIsInjective(x: byte, y: byte)
    requires Bits(x) == Bits(y)
    ensures x == y
  {
    PackIsInjective(Digits(x, 8), Digits(y, 8));
    assert Pow2(8) == 256;
    SameDigits(x, y, 8);
  }

  lemma LowByteIsSmall(x: bv32)
    ensures x & 0xFF <= 0xFF
  {
  }

  lemma SameAsNat(x: bv32)
    ensures (x as nat) as bv32 == x
    ensures x <= 0xFF ==> (x as nat) < 256
  {
  }

  lemma IndexInTable(x: bv32)
    ensures ((x & 0xFF) as nat) < 256
    ensures ((x & 0xFF) as nat) as bv32 == x & 0xFF
  {
    LowByteIsSmall(x);
    SameAsNat(x & 0xFF);
  }

  // ---- Registers as numbers ----------------------------------------------------

  lemma {:induction false} DigitsOfValue(d: seq<bool>)
    ensures Digits(ValueOf(d), |d|) == d
  {
    if d != [] {
      DigitsOfValue(d[1..]);
      assert ValueOf(d) / 2 == ValueOf(d[1..]);
    }
  }

  lemma PackLowByte(x: bv32)
    ensures Pack(x & 1 != 0, x & 2 != 0, x & 4 != 0, x & 8 != 0, x & 16 != 0, x & 32 != 0, x & 64 != 0, x & 128 != 0)
         == x & 0xFF
  {
  }

  lemma PackLowDigits(x: bv32)
    ensures PackAll(LowDigits(x)) == x & 0xFF
  {
    PackLowByte(x);
  }

  lemma BitsOfValue(d: seq<bool>, b: byte)
    requires |d| == 8 && b == ValueOf(d)
    ensures Bits(b) == PackAll(d)
  {
    DigitsOfValue(d);
  }

  lemma BitsOfLowByte(x: bv32)
    ensures Bits(LowByte(x)) == x & 0xFF
  {
    BitsOfValue(LowDigits(x), LowByte(x));
    PackLowDigits(x);
  }

  lemma FourDigits(b: seq<byte>, c: seq<byte>)
    requires |b| == |c| == 4 && FromBytes(b) == FromBytes(c)
    ensures b == c
  {
    var b0: int, b1: int, b2: int, b3: int := b[0], b[1], b[2], b[3];
    var c0: int, c1: int, c2: int, c3: int := c[0], c[1], c[2], c[3];
    assert b0 == c0 && b1 == c1 && b2 == c2 && b3 == c3;
  }

  lemma SameLowByte(x: bv32, y: bv32)
    requires LowByte(x) == LowByte(y)
    ensures x & 0xFF == y & 0xFF
  {
    BitsOfLowByte(x);
    BitsOfLowByte(y);
  }

  function Mask(x: bv32): bv32 { x & 0xFF }

  lemma MaskAndAbove(x: bv32, y: bv32)
    requires Mask(x) == Mask(y) && Above(x) == Above(y)
    ensures x == y
  {
  }

  /** Four low parts and what is above them determine the whole. */
  lemma Peel<R(!new), B, M>(low: R -> B, mask: R -> M, above: R -> R, x: R, y: R)
    requires forall a, b :: low(a) == low(b) ==> mask(a) == mask(b)
    requires forall a, b :: mask(a) == mask(b) && above(a) == above(b) ==> a == b
    requires FourLow(low, above, x) == FourLow(low, above, y)
    requires above(above(above(above(x)))) == above(above(above(above(y))))
    ensures x == y
  {
    var b, c := FourLow(low, above, x), FourLow(low, above, y);
    assert b[0] == c[0] && b[1] == c[1] && b[2] == c[2] && b[3] == c[3];
    assert above(above(above(x))) == above(above(above(y)));
    assert above(above(x)) == above(above(y));
    assert above(x) == above(y);
  }

  lemma SameWordBytes(x: bv32, y: bv32)
    requires WordBytes(x) == WordBytes(y)
    ensures x == y
  {
    forall a, b | LowByte(a) == LowByte(b) ensures Mask(a) == Mask(b) { SameLowByte(a, b); }
    forall a, b | Mask(a) == Mask(b) && Above(a) == Above(b) ensures a == b { MaskAndAbove(a, b); }
    NothingAbove(x);
    NothingAbove(y);
    Peel(LowByte, Mask, Above, x, y);
  }

  lemma UnsignedIsInjective(x: bv32, y: bv32)
    requires Unsigned(x) == Unsigned(y)
    ensures x == y
  {
    FourDigits(WordBytes(x), WordBytes(y));
    SameWordBytes(x, y);
  }

  lemma UnsignedFits(b: seq<byte>)
    requires |b| == 4
    ensures FromBytes(b) < 0x1_0000_0000
  {
  }

  lemma CrcFits(data: seq<byte>)
    ensures Crc(data) < 0x1_0000_0000
  {
    UnsignedFits(WordBytes(FeedBytes(ALL_ONES, data) ^ ALL_ONES));
  }

  // ---- Fixed values ------------------------------------------------------------

  lemma LowAndHigh(r: bv32, c: bv32)
    ensures r ^ c == (r ^ (c & 0xFF)) ^ (c & 0xFFFF_FF00) && c & 0xFF <= 0xFF
    ensures c & 0xFFFF_FF00 & 0xFF == 0 && (c & 0xFFFF_FF00) >> 8 == c >> 8
  {
  }

  /** Feeding the low byte of a word leaves the rest of it to be mixed in. */
  lemma FeedLowByte(r: bv32, c: bv32)
    ensures Xor(FeedByte(r, c & 0xFF), c >> 8) == Shifts8(Xor(r, c))
  {
    LowAndHigh(r, c);
    Shifts8IsLinear(r ^ (c & 0xFF), c & 0xFFFF_FF00);
    HighBytesShiftOut(c & 0xFFFF_FF00);
    FeedByteIsShifts8(r, c & 0xFF);
    Recombine(Shifts8, Xor, r ^ c, r ^ (c & 0xFF), c & 0xFFFF_FF00, c >> 8);
  }

  lemma FeedOneLow(r: bv32, c: bv32)
    ensures Xor(FeedOne(r, LowByte(c)), Above(c)) == Shifts8(Xor(r, c))
  {
    BitsOfLowByte(c);
    FeedLowByte(r, c);
  }

  lemma FoldFour<R, T>(f: (R, T) -> R, r: R, a: T, b: T, c: T, d: T)
    ensures Fold(f, r, [a, b, c, d]) == f(f(f(f(r, a), b), c), d)
  {
    var four := [a, b, c, d];
    assert four[..3] == [a, b, c] && [a, b, c][..2] == [a, b] && [a, b][..1] == [a] && [a][..0] == [];
    assert Fold(f, r, [a]) == f(r, a);
    assert Fold(f, r, [a, b]) == f(Fold(f, r, [a]), b);
    assert Fold(f, r, [a, b, c]) == f(Fold(f, r, [a, b]), c);
  }

  /** If each byte fed leaves the rest of the word to be mixed in, so do four. */
  lemma FeedFour<R(!new), B>(
    feed: (R, B) -> R, low: R -> B, above: R -> R, mix: (R, R) -> R, shifts: R -> R, r: R, c: R)
    requires forall x, y :: mix(feed(x, low(y)), above(y)) == shifts(mix(x, y))
    ensures mix(Fold(feed, r, FourLow(low, above, c)), above(above(above(above(c)))))
         == shifts(shifts(shifts(shifts(mix(r, c)))))
  {
    FoldFour(feed, r, low(c), low(above(c)), low(above(above(c))), low(above(above(above(c)))));
  }

  lemma NothingAbove(c: bv32)
    ensures Above(Above(Above(Above(c)))) == 0
  {
  }

  lemma XorZero(x: bv32)
    ensures Xor(x, 0) == x
  {
  }

  /** Feeding a whole word is mixing it in and shifting thirty-two times. */
  lemma FeedWord(r: bv32, c: bv32)
    ensures FeedBytes(r, WordBytes(c)) == Shifts8(Shifts8(Shifts8(Shifts8(Xor(r, c)))))
  {
    forall x, y ensures Xor(FeedOne(x, LowByte(y)), Above(y)) == Shifts8(Xor(x, y)) { FeedOneLow(x, y); }
    FeedFour(FeedOne, LowByte, Above, Xor, Shifts8, r, c);
    NothingAbove(c);
    XorZero(FeedBytes(r, WordBytes(c)));
  }

  lemma FirstEightShifts()
    ensures Shifts8(0xFFFFFFFF) == 0x2DFD1072
  {
    assert Shift(0xFFFFFFFF) == 0x92477CDF && Shift(0x92477CDF) == 0xA49B3D4F && Shift(0xA49B3D4F) == 0xBFF51D87;
    assert Shift(0xBFF51D87) == 0xB2420DE3 && Shift(0xB2420DE3) == 0xB49985D1 && Shift(0xB49985D1) == 0xB7F441C8;
    assert Shift(0xB7F441C8) == 0x5BFA20E4 && Shift(0x5BFA20E4) == 0x2DFD1072;
    Unroll8(Shift, 0xFFFFFFFF);
  }

  lemma SecondEightShifts()
    ensures Shifts8(0x2DFD1072) == 0xBE26ED00
  {
    assert Shift(0x2DFD1072) == 0x16FE8839 && Shift(0x16FE8839) == 0xE6C7C73C && Shift(0xE6C7C73C) == 0x7363E39E;
    assert Shift(0x7363E39E) == 0x39B1F1CF && Shift(0x39B1F1CF) == 0xF1607BC7 && Shift(0xF1607BC7) == 0x9508BEC3;
    assert Shift(0x9508BEC3) == 0xA73CDC41 && Shift(0xA73CDC41) == 0xBE26ED00;
    Unroll8(Shift, 0x2DFD1072);
  }

  lemma ThirdEightShifts()
    ensures Shifts8(0xBE26ED00) == 0x00BE26ED
  {
    assert Shift(0xBE26ED00) == 0x5F137680 && Shift(0x5F137680) == 0x2F89BB40 && Shift(0x2F89BB40) == 0x17C4DDA0;
    assert Shift(0x17C4DDA0) == 0x0BE26ED0 && Shift(0x0BE26ED0) == 0x05F13768 && Shift(0x05F13768) == 0x02F89BB4;
    assert Shift(0x02F89BB4) == 0x017C4DDA && Shift(0x017C4DDA) == 0x00BE26ED;
    Unroll8(Shift, 0xBE26ED00);
  }

  lemma FourthEightShifts()
    ensures Shifts8(0x00BE26ED) == 0xDEBB20E3
  {
    assert Shift(0x00BE26ED) == 0xEDE79056 && Shift(0xEDE79056) == 0x76F3C82B && Shift(0x76F3C82B) == 0xD6C16735;
    assert Shift(0xD6C16735) == 0x86D830BA && Shift(0x86D830BA) == 0x436C185D && Shift(0x436C185D) == 0xCC0E8F0E;
    assert Shift(0xCC0E8F0E) == 0x66074787 && Shift(0x66074787) == 0xDEBB20E3;
    Unroll8(Shift, 0x00BE26ED);
  }

  lemma ComplementIsAllOnes(r: bv32)
    ensures Xor(r, r ^ ALL_ONES) == 0xFFFFFFFF
  {
  }

  lemma ThirtyTwoShifts()
    ensures Shifts8(Shifts8(Shifts8(Shifts8(0xFFFFFFFF)))) == 0xDEBB20E3
  {
    FirstEightShifts();
    SecondEightShifts();
    ThirdEightShifts();
    FourthEightShifts();
  }

  /** Data followed by its own checksum leaves the register at one fixed value. */
  lemma RegisterAfterOwnCrc(data: seq<byte>)
    ensures FeedBytes(ALL_ONES, data + WordBytes(FeedBytes(ALL_ONES, data) ^ ALL_ONES)) == 0xDEBB20E3
  {
    var r := FeedBytes(ALL_ONES, data);
    FoldConcat(FeedOne, ALL_ONES, data, WordBytes(r ^ ALL_ONES));
    FeedWord(r, r ^ ALL_ONES);
    ComplementIsAllOnes(r);
    ThirtyTwoShifts();
  }

  lemma DigitsOfZero()
    ensures Bits(0) == 0
  {
    DigitsOfNothing(8);
    var d := Digits(0, 8);
    assert !d[0] && !d[1] && !d[2] && !d[3] && !d[4] && !d[5] && !d[6] && !d[7];
  }

  lemma {:induction false} DigitsOfNothing(k: nat)
    ensures forall i :: 0 <= i < k ==> !Digits(0, k)[i]
  {
    if k > 0 { DigitsOfNothing(k - 1); }
  }

  function Digit(b: bool, weight: nat): nat { if b then weight else 0 }

  lemma ValueOfCons(b: bool, rest: seq<bool>)
    ensures ValueOf([b] + rest) == Digit(b, 1) + 2 * ValueOf(rest)
  {
    assert ([b] + rest)[1..] == rest;
  }

  lemma ValueOfFour(b0: bool, b1: bool, b2: bool, b3: bool, rest: seq<bool>)
    ensures ValueOf([b0, b1, b2, b3] + rest)
         == Digit(b0, 1) + Digit(b1, 2) + Digit(b2, 4) + Digit(b3, 8) + 16 * ValueOf(rest)
  {
    assert [b0, b1, b2, b3] + rest == [b0] + ([b1] + ([b2] + ([b3] + rest)));
    ValueOfCons(b3, rest);
    ValueOfCons(b2, [b3] + rest);
    ValueOfCons(b1, [b2] + ([b3] + rest));
    ValueOfCons(b0, [b1] + ([b2] + ([b3] + rest)));
  }

  lemma ValueOfEight(b0: bool, b1: bool, b2: bool, b3: bool, b4: bool, b5: bool, b6: bool, b7: bool)
    ensures ValueOf([b0, b1, b2, b3, b4, b5, b6, b7])
         == Digit(b0, 1) + Digit(b1, 2) + Digit(b2, 4) + Digit(b3, 8)
          + 16 * (Digit(b4, 1) + Digit(b5, 2) + Digit(b6, 4) + Digit(b7, 8))
  {
    var high := [b4, b5, b6, b7];
    ValueOfFour(b0, b1, b2, b3, high);
    ValueOfFour(b4, b5, b6, b7, []);
    assert [b0, b1, b2, b3, b4, b5, b6, b7] == [b0, b1, b2, b3] + high && high + [] == high;
  }

  lemma LowByteIs(x: bv32, n: byte)
    requires n as int == Digit(x & 1 != 0, 1) + Digit(x & 2 != 0, 2) + Digit(x & 4 != 0, 4) + Digit(x & 8 != 0, 8)
      + 16 * (Digit(x & 16 != 0, 1) + Digit(x & 32 != 0, 2) + Digit(x & 64 != 0, 4) + Digit(x & 128 != 0, 8))
    ensures LowByte(x) == n
  {
    ValueOfEight(x & 1 != 0, x & 2 != 0, x & 4 != 0, x & 8 != 0, x & 16 != 0, x & 32 != 0, x & 64 != 0, x & 128 != 0);
  }

  lemma UnsignedIs(x: bv32, x1: bv32, x2: bv32, x3: bv32, a: byte, b: byte, c: byte, d: byte)
    requires Above(x) == x1 && Above(x1) == x2 && Above(x2) == x3
    requires LowByte(x) == a && LowByte(x1) == b && LowByte(x2) == c && LowByte(x3) == d
    ensures Unsigned(x) == a as int + 0x100 * b as int + 0x1_0000 * c as int + 0x100_0000 * d as int
  {
  }

  lemma UnsignedZero()
    ensures Unsigned(0) == 0
  {
    LowByteIs(0, 0);
    UnsignedIs(0, 0, 0, 0, 0, 0, 0, 0);
  }

  lemma UnsignedOfZeroByte()
    ensures Unsigned(0xD202EF8D) == 0xD202EF8D
  {
    LowByteIs(0xD202EF8D, 0x8D);
    LowByteIs(0x00D202EF, 0xEF);
    LowByteIs(0x0000D202, 0x02);
    LowByteIs(0x000000D2, 0xD2);
    UnsignedIs(0xD202EF8D, 0x00D202EF, 0x0000D202, 0x000000D2, 0x8D, 0xEF, 0x02, 0xD2);
  }

  lemma UnsignedResidue()
    ensures Unsigned(0x2144DF1C) == 0x2144DF1C
  {
    LowByteIs(0x2144DF1C, 0x1C);
    LowByteIs(0x002144DF, 0xDF);
    LowByteIs(0x00002144, 0x44);
    LowByteIs(0x00000021, 0x21);
    UnsignedIs(0x2144DF1C, 0x002144DF, 0x00002144, 0x00000021, 0x1C, 0xDF, 0x44, 0x21);
  }

  /** The checksum of nothing is 0: the register starts, and is complemented, with all ones. */
  lemma CrcOfNothing()
    ensures Crc([]) == 0
  {
    assert ALL_ONES ^ ALL_ONES == 0;
    UnsignedZero();
  }

  lemma RegisterAfterZero()
    ensures FeedBytes(ALL_ONES, [0]) ^ ALL_ONES == 0xD202EF8D
  {
    assert [0][..0] == [];
    assert FeedBytes(ALL_ONES, [0]) == FeedOne(ALL_ONES, 0);
    DigitsOfZero();
    FeedByteIsShifts8(ALL_ONES, 0);
    XorZero(ALL_ONES);
    FirstEightShifts();
  }

  lemma CrcOfZeroByte()
    ensures Crc([0]) == 0xD202EF8D
  {
    RegisterAfterZero();
    UnsignedOfZeroByte();
  }

  /** Data followed by the bytes of its own checksum, lowest first, has the checksum 0x2144DF1C, whatever the data. */
  lemma CrcOfOwnCrc(data: seq<byte>)
    ensures Crc(data + WordBytes(FeedBytes(ALL_ONES, data) ^ ALL_ONES)) == 0x2144DF1C
  {
    RegisterAfterOwnCrc(data);
    assert 0xDEBB20E3 ^ ALL_ONES == 0x2144DF1C;
    UnsignedResidue();
  }

  // ---- The source's two loops --------------------------------------------------

  predicate IsTable(table: seq<bv32>) {
    && |table| == 256
    && forall n :: 0 <= n < 256 ==> table[n] == Shifts8(n as bv32)
  }

  method TableEntry(n: bv32) returns (c: bv32)
    ensures c == Shifts8(n)
  {
    c := n;
    for k := 0 to 8
      invariant Iterate(Shift, c, 8 - k) == Shifts8(n)
    {
      c := if c & 1 == 1 then 0xEDB88320 ^ (c >> 1) else c >> 1;
    }
  }

  function Entry(n: nat): bv32 { Shifts8((n % 256) as bv32) }

  ghost predicate Filled<T>(t: seq<T>, entry: nat -> T, n: nat) {
    n <= |t| && forall m :: 0 <= m < n ==> t[m] == entry(m)
  }

  lemma FillNext<T>(t: seq<T>, entry: nat -> T, n: nat, c: T)
    requires Filled(t, entry, n) && n < |t| && c == entry(n)
    ensures Filled(t[n := c], entry, n + 1)
  {
  }

  lemma FilledIsTable(t: seq<bv32>)
    requires |t| == 256 && Filled(t, Entry, 256)
    ensures IsTable(t)
  {
    forall n | 0 <= n < 256 ensures t[n] == Shifts8(n as bv32) { assert n % 256 == n; }
  }

  method BuildTable() returns (table: array<bv32>)
    ensures IsTable(table[..])
  {
    table := new bv32[256];
    for n := 0 to 256
      invariant Filled(table[..], Entry, n)
    {
      var c := TableEntry(n as bv32);
      FillNext(table[..], Entry, n, c);
      table[n] := c;
    }
    FilledIsTable(table[..]);
  }

  lemma FeedNext(r: bv32, data: seq<byte>, i: nat)
    requires i < |data|
    ensures FeedBytes(r, data[..i + 1]) == FeedByte(FeedBytes(r, data[..i]), Bits(data[i]))
  {
    assert data[..i + 1][..i] == data[..i];
  }

  method TableCrc(table: array<bv32>, data: seq<byte>) returns (crc: nat)
    requires IsTable(table[..])
    ensures crc == Crc(data)
  {
    var reg: bv32 := 0xFFFF_FFFF;
    for i := 0 to |data|
      invariant reg == FeedBytes(ALL_ONES, data[..i])
    {
      FeedNext(ALL_ONES, data, i);
      BitsOfByte(data[i]);
      reg := TableFeed(table, reg, Bits(data[i]));
    }
    assert data[..|data|] == data;
    crc := Unsigned(reg ^ 0xFFFF_FFFF);
  }

  /** The body of the checksum loop. */
  method TableFeed(table: array<bv32>, reg: bv32, bits: bv32) returns (next: bv32)
    requires IsTable(table[..])
    requires bits <= 0xFF
    ensures next == FeedByte(reg, bits)
  {
    TableStep(reg, bits);
    IndexInTable(reg ^ bits);
    var entry := table[((reg ^ bits) & 0xFF) as nat];
    next := Xor(entry, reg >> 8);
  }

  // ---- What the checksum detects -----------------------------------------------

  lemma {:induction false} IterateIsInjective<T(!new)>(f: T -> T, x: T, y: T, k: nat)
    requires forall a, b :: f(a) == f(b) ==> a == b
    requires Iterate(f, x, k) == Iterate(f, y, k)
    ensures x == y
    decreases k
  {
    if k > 0 { IterateIsInjective(f, f(x), f(y), k - 1); }
  }

  lemma ShiftIsInjective(x: bv32, y: bv32)
    requires Shift(x) == Shift(y)
    ensures x == y
  {
    ShiftIsLinear(x, y);
    assert Shift(x) ^ Shift(y) == 0;
    ShiftLosesNothing(x ^ y);
  }

  /** Feeding loses neither the register nor the byte. */
  lemma FeedByteIsInjective(r: bv32, bits: bv32, s: bv32, bits': bv32)
    requires bits <= 0xFF && bits' <= 0xFF
    requires FeedByte(r, bits) == FeedByte(s, bits')
    ensures r ^ bits == s ^ bits'
  {
    FeedByteIsShifts8(r, bits);
    FeedByteIsShifts8(s, bits');
    forall a, b | Shift(a) == Shift(b) ensures a == b { ShiftIsInjective(a, b); }
    IterateIsInjective(Shift, Xor(r, bits), Xor(s, bits'), 8);
  }

  lemma {:induction false} FeedBytesKeepsDifference(r: bv32, s: bv32, data: seq<byte>)
    requires r != s
    ensures FeedBytes(r, data) != FeedBytes(s, data)
  {
    if data != [] {
      var front, bits := data[..|data| - 1], Bits(data[|data| - 1]);
      FeedBytesKeepsDifference(r, s, front);
      BitsOfByte(data[|data| - 1]);
      if FeedBytes(r, data) == FeedBytes(s, data) {
        FeedByteIsInjective(FeedBytes(r, front), bits, FeedBytes(s, front), bits);
        XorCancels(FeedBytes(r, front), FeedBytes(s, front), bits);
      }
    }
  }

  lemma XorCancels(r: bv32, s: bv32, bits: bv32)
    requires r ^ bits == s ^ bits
    ensures r == s
  {
  }

  lemma {:induction false} FoldConcat<R, T>(f: (R, T) -> R, r: R, a: seq<T>, b: seq<T>)
    ensures Fold(f, r, a + b) == Fold(f, Fold(f, r, a), b)
  {
    if b == [] {
      assert a + b == a;
    } else {
      FoldConcat(f, r, a, b[..|b| - 1]);
      assert (a + b)[..|a + b| - 1] == a + b[..|b| - 1];
    }
  }

  lemma UnsignedDiffers(x: bv32, y: bv32)
    requires x != y
    ensures Unsigned(x) != Unsigned(y)
  {
    if Unsigned(x) == Unsigned(y) { UnsignedIsInjective(x, y); }
  }

  lemma ComplementDiffers(r: bv32, s: bv32)
    requires r != s
    ensures r ^ ALL_ONES != s ^ ALL_ONES
  {
  }

  lemma ComplementsDiffer(r: bv32, s: bv32)
    requires r != s
    ensures Unsigned(r ^ ALL_ONES) != Unsigned(s ^ ALL_ONES)
  {
    ComplementDiffers(r, s);
    UnsignedDiffers(r ^ ALL_ONES, s ^ ALL_ONES);
  }

  lemma SameRegisterSameBits(r: bv32, bits: bv32, bits': bv32)
    requires bits <= 0xFF && bits' <= 0xFF && FeedByte(r, bits) == FeedByte(r, bits')
    ensures bits == bits'
  {
    FeedByteIsInjective(r, bits, r, bits');
    XorCancels(bits, bits', r);
  }

  lemma OneByteKeepsDifference(r: bv32, x: byte, y: byte)
    requires x != y
    ensures FeedBytes(r, [x]) != FeedBytes(r, [y])
  {
    assert FeedBytes(r, []) == r;
    BitsOfByte(x);
    BitsOfByte(y);
    if FeedByte(r, Bits(x)) == FeedByte(r, Bits(y)) {
      SameRegisterSameBits(r, Bits(x), Bits(y));
      BitsIsInjective(x, y);
    }
  }

  lemma CrcDiffers(a: seq<byte>, b: seq<byte>)
    requires FeedBytes(ALL_ONES, a) != FeedBytes(ALL_ONES, b)
    ensures Crc(a) != Crc(b)
  {
    ComplementsDiffer(FeedBytes(ALL_ONES, a), FeedBytes(ALL_ONES, b));
  }

  /** Changing any one byte of any data changes its CRC. */
  lemma OneByteChangeDetected(before: seq<byte>, x: byte, y: byte, after: seq<byte>)
    requires x != y
    ensures Crc(before + [x] + after) != Crc(before + [y] + after)
  {
    RegistersDiffer(before, x, y, after);
    CrcDiffers(before + [x] + after, before + [y] + after);
  }

  lemma RegistersDiffer(before: seq<byte>, x: byte, y: byte, after: seq<byte>)
    requires x != y
    ensures FeedBytes(ALL_ONES, before + [x] + after) != FeedBytes(ALL_ONES, before + [y] + after)
  {
    var r := FeedBytes(ALL_ONES, before);
    FoldConcat(FeedOne, ALL_ONES, before, [x]);
    FoldConcat(FeedOne, ALL_ONES, before, [y]);
    FoldConcat(FeedOne, ALL_ONES, before + [x], after);
    FoldConcat(FeedOne, ALL_ONES, before + [y], after);
    OneByteKeepsDifference(r, x, y);
    FeedBytesKeepsDifference(FeedBytes(r, [x]), FeedBytes(r, [y]), after);
  }
}
