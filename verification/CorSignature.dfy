/** Compressed integers and tokens of metadata signatures, as in section II.23.2 of ECMA-335. */
module CorSignature {

  datatype Uncompressed<T> = Uncompressed(value: T, size: nat) | BadSignature

  const MAX_DATA: bv32 := 0x1FFF_FFFF

  // Unsigned integers

  function Byte(x: bv32): bv8 {
    (x & 0xff) as bv8
  }

  function Wide(b: bv8): bv32 {
    b as bv32
  }

  predicate Compressible(x: bv32) {
    x <= MAX_DATA
  }

  function InOneByte(x: bv32): (b: seq<bv8>)
    ensures |b| == 1
  {
    [Byte(x)]
  }

  function InTwoBytes(x: bv32): (b: seq<bv8>)
    ensures |b| == 2
  {
    [Byte((x >> 8) | 0x80), Byte(x & 0xff)]
  }

  function InFourBytes(x: bv32): (b: seq<bv8>)
    ensures |b| == 4
  {
    [Byte((x >> 24) | 0xC0), Byte((x >> 16) & 0xff), Byte((x >> 8) & 0xff), Byte(x & 0xff)]
  }

  /** The bytes of a compressed integer: one, two or four, as few as possible. */
  function Compressed(x: bv32): (b: seq<bv8>)
    requires Compressible(x)
    ensures |b| == if x <= 0x7F then 1 else if x <= 0x3FFF then 2 else 4
  {
    if x <= 0x7F then InOneByte(x) else if x <= 0x3FFF then InTwoBytes(x) else InFourBytes(x)
  }

  function Two(b0: bv8, b1: bv8): bv32 {
    (Wide(b0 & 0x3f) << 8) | Wide(b1)
  }

  function Four(b0: bv8, b1: bv8, b2: bv8, b3: bv8): bv32 {
    (Wide(b0 & 0x1f) << 24) | (Wide(b1) << 16) | (Wide(b2) << 8) | Wide(b3)
  }

  /** The checked decoder.  It looks at the first byte before it looks at the length. */
  function Uncompress(data: seq<bv8>, len: nat): Uncompressed<bv32>
    requires 1 <= |data| && len <= |data|
  {
    if data[0] & 0x80 == 0 then if len < 1 then BadSignature else Uncompressed(Wide(data[0]), 1)
    else if data[0] & 0xC0 == 0x80 then if len < 2 then BadSignature else Uncompressed(Two(data[0], data[1]), 2)
    else if data[0] & 0xE0 == 0xC0 then
      if len < 4 then BadSignature else Uncompressed(Four(data[0], data[1], data[2], data[3]), 4)
    else BadSignature
  }

  /** The unchecked decoder takes every first byte of 11?????? for the start of four bytes. */
  function UncompressUnchecked(data: seq<bv8>): Uncompressed<bv32>
    requires |data| >= 4
  {
    if data[0] & 0x80 == 0 then Uncompressed(Wide(data[0]), 1)
    else if data[0] & 0xC0 == 0x80 then Uncompressed(Two(data[0], data[1]), 2)
    else Uncompressed(Four(data[0], data[1], data[2], data[3]), 4)
  }

  lemma OneByte(x: bv32)
    requires x <= 0x7F
    ensures Byte(x) & 0x80 == 0 && Wide(Byte(x)) == x
  {
  }

  lemma TwoBytes(x: bv32)
    requires x <= 0x3FFF
    ensures var b0 := Byte((x >> 8) | 0x80);
            b0 & 0x80 != 0 && b0 & 0xC0 == 0x80 && Two(b0, Byte(x & 0xff)) == x
  {
  }

  lemma FourBytes(x: bv32)
    requires x <= MAX_DATA
    ensures var b0 := Byte((x >> 24) | 0xC0);
            && b0 & 0x80 != 0 && b0 & 0xC0 != 0x80 && b0 & 0xE0 == 0xC0
            && Four(b0, Byte((x >> 16) & 0xff), Byte((x >> 8) & 0xff), Byte(x & 0xff)) == x
  {
  }

  lemma OneByteBack(x: bv32, rest: seq<bv8>)
    requires x <= 0x7F
    ensures Uncompress(InOneByte(x) + rest, 1 + |rest|) == Uncompressed(x, 1)
  {
    hide Byte, Wide, Two, Four;
    OneByte(x);
  }

  lemma TwoBytesBack(x: bv32, rest: seq<bv8>)
    requires x <= 0x3FFF
    ensures Uncompress(InTwoBytes(x) + rest, 2 + |rest|) == Uncompressed(x, 2)
  {
    hide Byte, Wide, Two, Four;
    TwoBytes(x);
  }

  lemma FourBytesBack(x: bv32, rest: seq<bv8>)
    requires x <= MAX_DATA
    ensures Uncompress(InFourBytes(x) + rest, 4 + |rest|) == Uncompressed(x, 4)
  {
    hide Byte, Wide, Two, Four;
    FourBytes(x);
  }

  /** Whatever follows, a compressed integer is read back with the number of bytes it takes. */
  lemma UncompressCompressed(x: bv32, rest: seq<bv8>)
    requires Compressible(x)
    ensures var data := Compressed(x) + rest; Uncompress(data, |data|) == Uncompressed(x, |Compressed(x)|)
  {
    hide InOneByte, InTwoBytes, InFourBytes, Uncompress;
    if x <= 0x7F { OneByteBack(x, rest); } else if x <= 0x3FFF { TwoBytesBack(x, rest); } else { FourBytesBack(x, rest); }
  }

  /** The bytes read as one number, the first byte first. */
  function BigEndian(b: seq<bv8>): bv32 {
    if b == [] then 0 else Behind(BigEndian(b[..|b| - 1]), b[|b| - 1])
  }

  function Behind(x: bv32, b: bv8): bv32 {
    (x << 8) | Wide(b)
  }

  lemma BigEndianOne(b0: bv8)
    ensures BigEndian([b0]) == Wide(b0)
  {
    hide Wide, Behind;
    assert [b0][..0] == [];
    FirstByteAlone(b0);
  }

  lemma FirstByteAlone(b: bv8)
    ensures Behind(0, b) == Wide(b)
  {
  }

  lemma BigEndianTwo(b0: bv8, b1: bv8)
    ensures BigEndian([b0, b1]) == Behind(Wide(b0), b1)
  {
    hide Wide, Behind;
    assert [b0, b1][..1] == [b0];
    BigEndianOne(b0);
  }

  lemma BigEndianFour(b0: bv8, b1: bv8, b2: bv8, b3: bv8)
    ensures BigEndian([b0, b1, b2, b3]) == Behind(Behind(Behind(Wide(b0), b1), b2), b3)
  {
    hide Wide, Behind;
    assert [b0, b1, b2, b3][..3] == [b0, b1, b2] && [b0, b1, b2][..2] == [b0, b1];
    BigEndianTwo(b0, b1);
  }

  lemma OneByteNumber(x: bv32)
    requires x <= 0x7F
    ensures BigEndian(InOneByte(x)) == x && StandsFor(InOneByte(x), x)
  {
    hide Byte, Wide;
    OneByte(x);
    BigEndianOne(Byte(x));
  }

  lemma TwoBytesNumber(x: bv32)
    requires x <= 0x3FFF
    ensures BigEndian(InTwoBytes(x)) == x + 0x8000 && StandsFor(InTwoBytes(x), x)
  {
    hide Byte, Wide, Behind;
    BigEndianTwo(Byte((x >> 8) | 0x80), Byte(x & 0xff));
    TwoBytesSum(x);
  }

  lemma TwoBytesSum(x: bv32)
    requires x <= 0x3FFF
    ensures Behind(Wide(Byte((x >> 8) | 0x80)), Byte(x & 0xff)) == x + 0x8000
  {
  }

  lemma FourBytesNumber(x: bv32)
    requires x <= MAX_DATA
    ensures BigEndian(InFourBytes(x)) == x + 0xC000_0000 && StandsFor(InFourBytes(x), x)
  {
    hide Byte, Wide, Behind;
    BigEndianFour(Byte((x >> 24) | 0xC0), Byte((x >> 16) & 0xff), Byte((x >> 8) & 0xff), Byte(x & 0xff));
    FourBytesSum(x);
  }

  lemma FourBytesSum(x: bv32)
    requires x <= MAX_DATA
    ensures Behind(Behind(Behind(Wide(Byte((x >> 24) | 0xC0)), Byte((x >> 16) & 0xff)), Byte((x >> 8) & 0xff)), Byte(x & 0xff)) == x + 0xC000_0000
  {
  }

  /** What stands in the one, two or four bytes of `x`: the number itself behind the bits 0, 10 and 110. */
  predicate StandsFor(b: seq<bv8>, x: bv32) {
    BigEndian(b) == if |b| == 1 then x else if |b| == 2 then x + 0x8000 else x + 0xC000_0000
  }

  /** An integer takes as few bytes as possible and stands in them with its highest byte first. */
  lemma CompressedNumber(x: bv32)
    requires x <= 0x1FFF_FFFF
    ensures |Compressed(x)| == (if x <= 0x7F then 1 else if x <= 0x3FFF then 2 else 4) && StandsFor(Compressed(x), x)
  {
    hide InOneByte, InTwoBytes, InFourBytes, BigEndian;
    if x <= 0x7F { OneByteNumber(x); } else if x <= 0x3FFF { TwoBytesNumber(x); } else { FourBytesNumber(x); }
  }

  lemma LeadingBits(b0: bv8)
    ensures b0 & 0x80 == 0 <==> b0 < 0x80
    ensures b0 & 0xC0 == 0x80 <==> 0x80 <= b0 < 0xC0
    ensures b0 & 0xE0 == 0xC0 <==> 0xC0 <= b0 < 0xE0
  {
  }

  function Distance(x: bv32, least: bv32): bv32 {
    x - least
  }

  lemma TwoNumber(b0: bv8, b1: bv8)
    requires 0x80 <= b0 < 0xC0
    ensures Two(b0, b1) == Distance(Behind(Wide(b0), b1), 0x8000)
  {
  }

  lemma FourNumber(b0: bv8, b1: bv8, b2: bv8, b3: bv8)
    requires 0xC0 <= b0 < 0xE0
    ensures Four(b0, b1, b2, b3) == Distance(Behind(Behind(Behind(Wide(b0), b1), b2), b3), 0xC000_0000)
  {
  }

  /** The number of bytes that start with `b0`. */
  function LengthFrom(b0: bv8): nat {
    if b0 < 0x80 then 1 else if b0 < 0xC0 then 2 else if b0 < 0xE0 then 4 else 0
  }

  /** The first byte decides how many bytes are read; these, the first one highest, hold the number behind the bits 0, 10 or
      110.  A first byte from 0xE0 on is refused, and so are data that end too soon. */
  lemma UncompressNumber(data: seq<bv8>, len: nat)
    requires 1 <= |data| && len <= |data|
    ensures var k := LengthFrom(data[0]);
            if k == 0 || len < k then Uncompress(data, len) == BadSignature
            else Uncompress(data, len) == Uncompressed(Distance(BigEndian(data[..k]), if k == 1 then 0 else if k == 2 then 0x8000 else 0xC000_0000), k)
  {
    hide Two, Four, Behind, Wide, BigEndian, Distance, LengthFrom;
    var k := LengthFrom(data[0]);
    LengthIs(data[0]);
    if k == 1 && len >= 1 {
      assert data[..1] == [data[0]];
      BigEndianOne(data[0]);
      NoDistance(Wide(data[0]));
    } else if k == 2 && len >= 2 {
      assert data[..2] == [data[0], data[1]];
      BigEndianTwo(data[0], data[1]);
      LongFrom(data[0]);
      TwoNumber(data[0], data[1]);
    } else if k == 4 && len >= 4 {
      assert data[..4] == [data[0], data[1], data[2], data[3]];
      BigEndianFour(data[0], data[1], data[2], data[3]);
      LongFrom(data[0]);
      FourNumber(data[0], data[1], data[2], data[3]);
    }
  }

  lemma LengthIs(b0: bv8)
    ensures LengthFrom(b0) == if b0 & 0x80 == 0 then 1 else if b0 & 0xC0 == 0x80 then 2 else if b0 & 0xE0 == 0xC0 then 4 else 0
  {
    hide LengthFrom;
    LeadingBits(b0);
    LengthCases(b0);
  }

  lemma LengthCases(b0: bv8)
    ensures b0 < 0x80 ==> LengthFrom(b0) == 1
    ensures 0x80 <= b0 < 0xC0 ==> LengthFrom(b0) == 2
    ensures 0xC0 <= b0 < 0xE0 ==> LengthFrom(b0) == 4
    ensures 0xE0 <= b0 ==> LengthFrom(b0) == 0
    ensures b0 < 0x80 || 0x80 <= b0 < 0xC0 || 0xC0 <= b0 < 0xE0 || 0xE0 <= b0
  {
  }

  lemma LongFrom(b0: bv8)
    ensures LengthFrom(b0) == 2 ==> 0x80 <= b0 < 0xC0
    ensures LengthFrom(b0) == 4 ==> 0xC0 <= b0 < 0xE0
  {
  }

  lemma NoDistance(x: bv32)
    ensures Distance(x, 0) == x
  {
  }

  /** The two decoders agree but for the first bytes that the checked one refuses. */
  lemma UncheckedAgrees(data: seq<bv8>)
    requires |data| >= 4
    ensures UncompressUnchecked(data) == Uncompress(data, |data|) <==> data[0] & 0xE0 != 0xE0
  {
    FirstByte(data[0]);
  }

  lemma FirstByte(b: bv8)
    ensures b & 0xE0 == 0xE0 <==> b & 0x80 != 0 && b & 0xC0 != 0x80 && b & 0xE0 != 0xC0
  {
  }

  // Signed integers, in two's complement

  const SIGN_MASK_ONEBYTE: bv32 := 0xffff_ffc0
  const SIGN_MASK_TWOBYTE: bv32 := 0xffff_e000
  const SIGN_MASK_FOURBYTE: bv32 := 0xf000_0000

  function Masked(x: bv32, mask: bv32): bv32 {
    x & mask
  }

  function Cleared(x: bv32, mask: bv32): bv32 {
    x & !mask
  }

  function Extended(x: bv32, mask: bv32): bv32 {
    x | mask
  }

  function Appended(x: bv32, sign: bv32): bv32 {
    (x << 1) | sign
  }

  function Halved(x: bv32): bv32 {
    x >> 1
  }

  predicate IsOdd(x: bv32) {
    x & 1 != 0
  }

  /** The bits under the mask are all equal to the sign. */
  predicate FitsUnder(x: bv32, mask: bv32) {
    Masked(x, mask) == 0 || Masked(x, mask) == mask
  }

  function SignBit(x: bv32): bv32 {
    if x & 0x8000_0000 != 0 then 1 else 0
  }

  /** The sign moves to the lowest bit. */
  function Rotated(x: bv32, mask: bv32): bv32 {
    Appended(Cleared(x, mask), SignBit(x))
  }

  function Unrotated(y: bv32, mask: bv32): bv32 {
    if IsOdd(y) then Extended(Halved(y), mask) else Halved(y)
  }

  predicate CompressibleSigned(x: bv32) {
    FitsUnder(x, SIGN_MASK_FOURBYTE)
  }

  function CompressedSigned(x: bv32): (b: seq<bv8>)
    requires CompressibleSigned(x)
  {
    if FitsUnder(x, SIGN_MASK_ONEBYTE) then InOneByte(Rotated(x, SIGN_MASK_ONEBYTE))
    else if FitsUnder(x, SIGN_MASK_TWOBYTE) then InTwoBytes(Rotated(x, SIGN_MASK_TWOBYTE))
    else InFourBytes(Rotated(x, SIGN_MASK_FOURBYTE))
  }

  function SignMask(size: nat): bv32 {
    if size == 1 then SIGN_MASK_ONEBYTE else if size == 2 then SIGN_MASK_TWOBYTE else SIGN_MASK_FOURBYTE
  }

  function UncompressSigned(data: seq<bv8>, len: nat): Uncompressed<bv32>
    requires 1 <= |data| && len <= |data|
  {
    match Uncompress(data, len)
    case BadSignature => BadSignature
    case Uncompressed(y, size) => Uncompressed(Unrotated(y, SignMask(size)), size)
  }

  lemma SignedRange(x: bv32)
    ensures CompressibleSigned(x) <==> x <= 0x0FFF_FFFF || x >= 0xF000_0000
  {
  }

  lemma FreeBits1(x: bv32)
    ensures Cleared(x, SIGN_MASK_ONEBYTE) <= 0x3f
  {
  }

  lemma FreeBits2(x: bv32)
    ensures Cleared(x, SIGN_MASK_TWOBYTE) <= 0x1fff
  {
  }

  lemma FreeBits4(x: bv32)
    ensures Cleared(x, SIGN_MASK_FOURBYTE) <= 0x0fff_ffff
  {
  }

  lemma SplitBits(x: bv32, mask: bv32)
    ensures Extended(Cleared(x, mask), Masked(x, mask)) == x && Extended(Cleared(x, mask), 0) == Cleared(x, mask)
  {
  }

  lemma SignUnder(x: bv32, mask: bv32)
    requires mask & 0x8000_0000 != 0
    ensures Masked(x, mask) == 0 ==> SignBit(x) == 0
    ensures Masked(x, mask) == mask ==> SignBit(x) == 1
  {
    if Masked(x, mask) == 0 { ClearSign(x, mask); }
    if Masked(x, mask) == mask { SetSign(x, mask); }
  }

  lemma ClearSign(x: bv32, mask: bv32)
    requires mask & 0x8000_0000 != 0 && x & mask == 0
    ensures x & 0x8000_0000 == 0
  {
  }

  lemma SetSign(x: bv32, mask: bv32)
    requires mask & 0x8000_0000 != 0 && x & mask == mask
    ensures x & 0x8000_0000 != 0
  {
  }

  lemma OddBack(z: bv32)
    requires z <= 0x0fff_ffff
    ensures IsOdd(Appended(z, 1)) && Halved(Appended(z, 1)) == z
  {
  }

  lemma EvenBack(z: bv32)
    requires z <= 0x0fff_ffff
    ensures !IsOdd(Appended(z, 0)) && Halved(Appended(z, 0)) == z
  {
  }

  lemma AppendedBound(z: bv32, s: bv32)
    requires s <= 1
    ensures z <= 0x3f ==> Appended(z, s) <= 0x7F
    ensures z <= 0x1fff ==> Appended(z, s) <= 0x3FFF
    ensures z <= 0x0fff_ffff ==> Appended(z, s) <= MAX_DATA
  {
  }

  /** Rotating the sign to the lowest bit can be undone. */
  lemma RotatedBack(x: bv32, mask: bv32)
    requires mask & 0x8000_0000 != 0 && FitsUnder(x, mask) && Cleared(x, mask) <= 0x0fff_ffff
    ensures Unrotated(Rotated(x, mask), mask) == x
  {
    hide SignBit, Masked, Cleared, Extended, Appended, Halved, IsOdd;
    SplitBits(x, mask);
    SignUnder(x, mask);
    OddBack(Cleared(x, mask));
    EvenBack(Cleared(x, mask));
  }

  lemma SignSmall(x: bv32)
    ensures SignBit(x) <= 1
  {
  }

  lemma RotatedOne(x: bv32)
    requires FitsUnder(x, SIGN_MASK_ONEBYTE)
    ensures Unrotated(Rotated(x, SIGN_MASK_ONEBYTE), SIGN_MASK_ONEBYTE) == x && Rotated(x, SIGN_MASK_ONEBYTE) <= 0x7F
  {
    hide FitsUnder, SignBit, Cleared, Appended, Unrotated;
    SignSmall(x);
    FreeBits1(x);
    RotatedBack(x, SIGN_MASK_ONEBYTE);
    AppendedBound(Cleared(x, SIGN_MASK_ONEBYTE), SignBit(x));
  }

  lemma RotatedTwo(x: bv32)
    requires FitsUnder(x, SIGN_MASK_TWOBYTE)
    ensures Unrotated(Rotated(x, SIGN_MASK_TWOBYTE), SIGN_MASK_TWOBYTE) == x && Rotated(x, SIGN_MASK_TWOBYTE) <= 0x3FFF
  {
    hide FitsUnder, SignBit, Cleared, Appended, Unrotated;
    SignSmall(x);
    FreeBits2(x);
    RotatedBack(x, SIGN_MASK_TWOBYTE);
    AppendedBound(Cleared(x, SIGN_MASK_TWOBYTE), SignBit(x));
  }

  lemma RotatedFour(x: bv32)
    requires FitsUnder(x, SIGN_MASK_FOURBYTE)
    ensures Unrotated(Rotated(x, SIGN_MASK_FOURBYTE), SIGN_MASK_FOURBYTE) == x && Rotated(x, SIGN_MASK_FOURBYTE) <= MAX_DATA
  {
    hide FitsUnder, SignBit, Cleared, Appended, Unrotated;
    SignSmall(x);
    FreeBits4(x);
    RotatedBack(x, SIGN_MASK_FOURBYTE);
    AppendedBound(Cleared(x, SIGN_MASK_FOURBYTE), SignBit(x));
  }

  lemma FitsNumbers(x: bv32)
    ensures FitsUnder(x, SIGN_MASK_ONEBYTE) <==> x <= 0x3F || x >= 0xFFFF_FFC0
    ensures FitsUnder(x, SIGN_MASK_TWOBYTE) <==> x <= 0x1FFF || x >= 0xFFFF_E000
  {
  }

  function Even(x: bv32): bv32 {
    2 * x
  }

  function Odd(x: bv32): bv32 {
    2 * x + 1
  }

  /** A number under the sign bits `mask`. */
  predicate SmallUnder(x: bv32, mask: bv32) {
    (mask == SIGN_MASK_ONEBYTE && x <= 0x3F) || (mask == SIGN_MASK_TWOBYTE && x <= 0x1FFF) || (mask == SIGN_MASK_FOURBYTE && x <= 0x0FFF_FFFF)
  }

  lemma PositiveBits(x: bv32, mask: bv32)
    requires SmallUnder(x, mask)
    ensures Cleared(x, mask) == x && SignBit(x) == 0 && Appended(x, 0) == Even(x)
  {
  }

  lemma NegativeBits(y: bv32, mask: bv32)
    requires SmallUnder(Distance(y, mask), mask)
    ensures Cleared(y, mask) == Distance(y, mask) && SignBit(y) == 1 && Appended(Distance(y, mask), 1) == Odd(Distance(y, mask))
  {
  }

  lemma RotatedNumber(x: bv32, mask: bv32)
    ensures SmallUnder(x, mask) ==> Rotated(x, mask) == Even(x)
    ensures SmallUnder(Distance(x, mask), mask) ==> Rotated(x, mask) == Odd(Distance(x, mask))
  {
    hide SmallUnder, Cleared, SignBit, Appended, Even, Odd, Distance;
    if SmallUnder(x, mask) { PositiveBits(x, mask); }
    if SmallUnder(Distance(x, mask), mask) { NegativeBits(x, mask); }
  }

  /** The least number of so many bytes. */
  function Least(size: nat): bv32 {
    if size == 1 then 0xFFFF_FFC0 else if size == 2 then 0xFFFF_E000 else 0xF000_0000
  }

  lemma SmallNumbers(x: bv32)
    ensures SmallUnder(x, SIGN_MASK_ONEBYTE) <==> x <= 0x3F
    ensures SmallUnder(x, SIGN_MASK_TWOBYTE) <==> x <= 0x1FFF
    ensures SmallUnder(x, SIGN_MASK_FOURBYTE) <==> x <= 0x0FFF_FFFF
    ensures SmallUnder(Distance(x, SIGN_MASK_ONEBYTE), SIGN_MASK_ONEBYTE) <==> x >= Least(1)
    ensures SmallUnder(Distance(x, SIGN_MASK_TWOBYTE), SIGN_MASK_TWOBYTE) <==> x >= Least(2)
    ensures SmallUnder(Distance(x, SIGN_MASK_FOURBYTE), SIGN_MASK_FOURBYTE) <==> x >= Least(4)
  {
  }

  /** A signed integer takes one byte from -2^6 to 2^6 - 1, two from -2^13 to 2^13 - 1, and four otherwise.  The bytes hold
      twice its distance from zero, or from the least number of that many bytes if it is negative, which makes it odd. */
  lemma SignedNumber(x: bv32)
    requires x <= 0x0FFF_FFFF || x >= 0xF000_0000
    ensures CompressibleSigned(x)
    ensures |CompressedSigned(x)| == 1 <==> x <= 0x3F || x >= 0xFFFF_FFC0
    ensures |CompressedSigned(x)| == 2 <==> 0x3F < x <= 0x1FFF || 0xFFFF_E000 <= x < 0xFFFF_FFC0
    ensures |CompressedSigned(x)| == 4 <==> 0x1FFF < x < 0xFFFF_E000
    ensures x <= 0x0FFF_FFFF ==> StandsFor(CompressedSigned(x), Even(x))
    ensures x >= 0xF000_0000 ==>
              StandsFor(CompressedSigned(x), Odd(Distance(x, Least(|CompressedSigned(x)|))))
  {
    hide InOneByte, InTwoBytes, InFourBytes, BigEndian, FitsUnder, Rotated, SmallUnder, Even, Odd, Distance, StandsFor;
    SignedRange(x);
    FitsNumbers(x);
    SmallNumbers(x);
    RotatedNumber(x, SIGN_MASK_ONEBYTE);
    RotatedNumber(x, SIGN_MASK_TWOBYTE);
    RotatedNumber(x, SIGN_MASK_FOURBYTE);
    if FitsUnder(x, SIGN_MASK_ONEBYTE) {
      RotatedOne(x);
      OneByteNumber(Rotated(x, SIGN_MASK_ONEBYTE));
    } else if FitsUnder(x, SIGN_MASK_TWOBYTE) {
      RotatedTwo(x);
      TwoBytesNumber(Rotated(x, SIGN_MASK_TWOBYTE));
    } else {
      RotatedFour(x);
      FourBytesNumber(Rotated(x, SIGN_MASK_FOURBYTE));
    }
  }

  /** An even number stands for its half, an odd one for its half above the least number of so many bytes. */
  lemma UncompressSignedNumber(data: seq<bv8>, len: nat)
    requires 1 <= |data| && len <= |data|
    ensures Uncompress(data, len).BadSignature? <==> UncompressSigned(data, len).BadSignature?
    ensures Uncompress(data, len).Uncompressed? ==>
              var u := Uncompress(data, len); UncompressSigned(data, len) == Uncompressed(SignedFrom(u.value, u.size), u.size)
  {
    hide Unrotated, SignedFrom, Uncompress;
    match Uncompress(data, len)
    case BadSignature =>
    case Uncompressed(y, k) =>
      SmallData(data, len);
      UnrotatedNumber(y, k);
  }

  function SignedFrom(y: bv32, size: nat): bv32 {
    if y % 2 == 0 then y / 2 else Raised(y / 2, Least(size))
  }

  function Raised(x: bv32, least: bv32): bv32 {
    least + x
  }

  lemma SmallData(data: seq<bv8>, len: nat)
    requires 1 <= |data| && len <= |data| && Uncompress(data, len).Uncompressed?
    ensures var u := Uncompress(data, len);
            (u.size == 1 && u.value <= 0x7F) || (u.size == 2 && u.value <= 0x3FFF) || (u.size == 4 && u.value <= MAX_DATA)
  {
    hide Two, Four, Wide;
    SmallOne(data[0]);
    if |data| >= 2 { SmallTwo(data[0], data[1]); }
    if |data| >= 4 { SmallFour(data[0], data[1], data[2], data[3]); }
  }

  lemma SmallOne(b0: bv8)
    ensures b0 & 0x80 == 0 ==> Wide(b0) <= 0x7F
  {
  }

  lemma SmallTwo(b0: bv8, b1: bv8)
    ensures Two(b0, b1) <= 0x3FFF
  {
  }

  lemma SmallFour(b0: bv8, b1: bv8, b2: bv8, b3: bv8)
    ensures Four(b0, b1, b2, b3) <= MAX_DATA
  {
  }

  lemma UnrotatedNumber(y: bv32, size: nat)
    requires (size == 1 && y <= 0x7F) || (size == 2 && y <= 0x3FFF) || (size == 4 && y <= MAX_DATA)
    ensures Unrotated(y, SignMask(size)) == SignedFrom(y, size)
  {
    hide Raised, Extended;
    Parity(y);
    if size == 1 { RaisedOne(y / 2); } else if size == 2 { RaisedTwo(y / 2); } else { RaisedFour(y / 2); }
  }

  lemma Parity(y: bv32)
    ensures IsOdd(y) <==> y % 2 != 0
    ensures Halved(y) == y / 2
    ensures y <= 0x7F ==> y / 2 <= 0x3F
    ensures y <= 0x3FFF ==> y / 2 <= 0x1FFF
    ensures y <= MAX_DATA ==> y / 2 <= 0x0FFF_FFFF
  {
  }

  lemma RaisedOne(x: bv32)
    requires x <= 0x3F
    ensures Extended(x, SIGN_MASK_ONEBYTE) == Raised(x, Least(1))
  {
  }

  lemma RaisedTwo(x: bv32)
    requires x <= 0x1FFF
    ensures Extended(x, SIGN_MASK_TWOBYTE) == Raised(x, Least(2))
  {
  }

  lemma RaisedFour(x: bv32)
    requires x <= 0x0FFF_FFFF
    ensures Extended(x, SIGN_MASK_FOURBYTE) == Raised(x, Least(4))
  {
  }

  /** Whatever follows, a compressed signed integer is read back with the number of bytes it takes. */
  lemma UncompressCompressedSigned(x: bv32, rest: seq<bv8>)
    requires CompressibleSigned(x)
    ensures var data := CompressedSigned(x) + rest; UncompressSigned(data, |data|) == Uncompressed(x, |CompressedSigned(x)|)
  {
    hide InOneByte, InTwoBytes, InFourBytes, Uncompress, FitsUnder, Rotated, Unrotated;
    if FitsUnder(x, SIGN_MASK_ONEBYTE) {
      RotatedOne(x);
      OneByteBack(Rotated(x, SIGN_MASK_ONEBYTE), rest);
    } else if FitsUnder(x, SIGN_MASK_TWOBYTE) {
      RotatedTwo(x);
      TwoBytesBack(Rotated(x, SIGN_MASK_TWOBYTE), rest);
    } else {
      RotatedFour(x);
      FourBytesBack(Rotated(x, SIGN_MASK_FOURBYTE), rest);
    }
  }

  // Tokens

  const TYPE_DEF: bv32 := 0x0200_0000
  const TYPE_REF: bv32 := 0x0100_0000
  const TYPE_SPEC: bv32 := 0x1b00_0000
  const BASE_TYPE: bv32 := 0x7200_0000

  function DecodeTokenType(code: bv32): bv32 {
    if code == 0 then TYPE_DEF else if code == 1 then TYPE_REF else if code == 2 then TYPE_SPEC else BASE_TYPE
  }

  function RidFromToken(token: bv32): bv32 {
    token & 0x00ff_ffff
  }

  function TypeFromToken(token: bv32): bv32 {
    token & 0xff00_0000
  }

  function TypeCode(type': bv32): bv32 {
    if type' == TYPE_REF then 1 else if type' == TYPE_SPEC then 2 else if type' == BASE_TYPE then 3 else 0
  }

  function Packed(rid: bv32, code: bv32): bv32 {
    (rid << 2) | code
  }

  /** The type goes into the two lowest bits; types that cannot be told are taken for definitions. */
  function TokenData(token: bv32): bv32 {
    Packed(RidFromToken(token), TypeCode(TypeFromToken(token)))
  }

  function TokenFromRid(rid: bv32, type': bv32): bv32 {
    rid | type'
  }

  function DataToken(data: bv32): bv32 {
    TokenFromRid(data >> 2, DecodeTokenType(data & 3))
  }

  predicate KnownType(token: bv32) {
    var type' := TypeFromToken(token);
    type' == TYPE_DEF || type' == TYPE_REF || type' == TYPE_SPEC || type' == BASE_TYPE
  }

  /** Every token can be compressed. */
  lemma TokenCompressible(token: bv32)
    ensures Compressible(TokenData(token))
  {
    hide RidFromToken, TypeFromToken, Packed;
    RidSmall(token);
    PackedSmall(RidFromToken(token), TypeCode(TypeFromToken(token)));
  }

  lemma RidSmall(token: bv32)
    ensures RidFromToken(token) <= 0x00ff_ffff
  {
  }

  lemma PackedSmall(rid: bv32, code: bv32)
    requires rid <= 0x00ff_ffff && code <= 3
    ensures Packed(rid, code) <= MAX_DATA && Packed(rid, code) >> 2 == rid && Packed(rid, code) & 3 == code
  {
  }

  lemma PackedNumber(rid: bv32, code: bv32)
    requires rid <= 0x00ff_ffff && code <= 3
    ensures Packed(rid, code) == Tagged(rid, code)
  {
    ShiftedTwice(rid);
    LowBits(rid << 2, code);
  }

  lemma ShiftedTwice(rid: bv32)
    ensures rid << 2 == 4 * rid && (rid << 2) & 3 == 0
  {
  }

  lemma LowBits(x: bv32, code: bv32)
    requires x & 3 == 0 && code <= 3
    ensures x | code == x + code
  {
  }

  function Tagged(row: bv32, tag: bv32): bv32 {
    4 * row + tag
  }

  /** The row of a metadata table that a token stands for, and the number of the table. */
  function RowOf(token: bv32): bv32 {
    token % 0x100_0000
  }

  function TableOf(token: bv32): bv32 {
    token / 0x100_0000
  }

  lemma TypesByNumber(token: bv32)
    ensures RidFromToken(token) == RowOf(token)
    ensures TypeFromToken(token) == TYPE_REF <==> TableOf(token) == 1
    ensures TypeFromToken(token) == TYPE_SPEC <==> TableOf(token) == 0x1b
    ensures TypeFromToken(token) == BASE_TYPE <==> TableOf(token) == 0x72
    ensures TypeFromToken(token) == TYPE_DEF <==> TableOf(token) == 2
  {
  }

  /** A token is packed as four times its row, plus 1, 2 and 3 for references, specifications and base types. */
  lemma TokenNumber(token: bv32)
    ensures TokenData(token) == Tagged(RowOf(token),
             if TableOf(token) == 1 then 1 else if TableOf(token) == 0x1b then 2 else if TableOf(token) == 0x72 then 3 else 0)
    ensures KnownType(token) <==> TableOf(token) == 1 || TableOf(token) == 2 || TableOf(token) == 0x1b || TableOf(token) == 0x72
  {
    hide RidFromToken, TypeFromToken, Packed, Tagged, RowOf, TableOf;
    TypesByNumber(token);
    RidSmall(token);
    PackedNumber(RidFromToken(token), TypeCode(TypeFromToken(token)));
  }

  /** The table that a remainder by four stands for: definitions, references, specifications and base types. */
  function TaggedTable(tag: bv32): bv32 {
    if tag == 0 then 2 else if tag == 1 then 1 else if tag == 2 then 0x1b else 0x72
  }

  /** The remainder by four says which table the row belongs to. */
  lemma DataTokenNumber(data: bv32)
    requires data <= 0x03FF_FFFF
    ensures RowOf(DataToken(data)) == data / 4 && TableOf(DataToken(data)) == TaggedTable(data % 4)
  {
    hide TokenFromRid, RowOf, TableOf, DecodeTokenType, TaggedTable;
    Quarter(data);
    TypeNumber(data & 3);
    SplitToken(data / 4, TaggedTable(data % 4));
  }

  lemma Quarter(data: bv32)
    ensures data >> 2 == data / 4 && data & 3 == data % 4 && data % 4 <= 3
    ensures data <= 0x03FF_FFFF ==> data / 4 <= 0x00ff_ffff
  {
  }

  lemma TypeNumber(tag: bv32)
    requires tag <= 3
    ensures DecodeTokenType(tag) == TaggedTable(tag) << 24 && TaggedTable(tag) <= 0xff
  {
  }

  lemma SplitToken(row: bv32, table: bv32)
    requires row <= 0x00ff_ffff && table <= 0xff
    ensures RowOf(TokenFromRid(row, table << 24)) == row && TableOf(TokenFromRid(row, table << 24)) == table
  {
  }

  function CompressedToken(token: bv32): seq<bv8> {
    TokenCompressible(token);
    Compressed(TokenData(token))
  }

  function UncompressToken(data: seq<bv8>, len: nat): Uncompressed<bv32>
    requires 1 <= |data| && len <= |data|
  {
    match Uncompress(data, len)
    case BadSignature => BadSignature
    case Uncompressed(x, size) => Uncompressed(DataToken(x), size)
  }

  lemma WholeToken(token: bv32)
    ensures TokenFromRid(RidFromToken(token), TypeFromToken(token)) == token
  {
  }

  lemma TypeKept(rid: bv32, type': bv32)
    requires rid <= 0x00ff_ffff && type' & 0x00ff_ffff == 0
    ensures TypeFromToken(TokenFromRid(rid, type')) == type'
  {
  }

  lemma TypesHaveNoRid(code: bv32)
    ensures DecodeTokenType(code) & 0x00ff_ffff == 0
  {
  }

  lemma TokenBack(token: bv32)
    ensures DataToken(TokenData(token)) == token <==> KnownType(token)
  {
    hide RidFromToken, TypeFromToken, Packed, TokenFromRid;
    var rid, code := RidFromToken(token), TypeCode(TypeFromToken(token));
    RidSmall(token);
    PackedSmall(rid, code);
    WholeToken(token);
    TypesHaveNoRid(code);
    TypeKept(rid, DecodeTokenType(code));
  }

  /** A token survives compression exactly if its type is one of the four that the encoding knows. */
  lemma UncompressCompressedToken(token: bv32, rest: seq<bv8>)
    ensures var data := CompressedToken(token) + rest;
            && |data| > 0 && UncompressToken(data, |data|).Uncompressed?
            && UncompressToken(data, |data|).size == |CompressedToken(token)|
            && (UncompressToken(data, |data|).value == token <==> KnownType(token))
  {
    hide Compressed, Uncompress, TokenData, DataToken, KnownType;
    TokenCompressible(token);
    TokenBack(token);
    UncompressCompressed(TokenData(token), rest);
  }

  // Signatures

  datatype Kind = UnsignedInteger | SignedInteger | TypeToken

  datatype Item = Item(kind: Kind, value: bv32)

  predicate ItemCompressible(i: Item) {
    match i.kind
    case UnsignedInteger => Compressible(i.value)
    case SignedInteger => CompressibleSigned(i.value)
    case TypeToken => KnownType(i.value)
  }

  function CompressedItem(i: Item): seq<bv8>
    requires ItemCompressible(i)
  {
    match i.kind
    case UnsignedInteger => Compressed(i.value)
    case SignedInteger => CompressedSigned(i.value)
    case TypeToken => CompressedToken(i.value)
  }

  function UncompressItem(kind: Kind, data: seq<bv8>): Uncompressed<bv32>
    requires |data| >= 1
  {
    match kind
    case UnsignedInteger => Uncompress(data, |data|)
    case SignedInteger => UncompressSigned(data, |data|)
    case TypeToken => UncompressToken(data, |data|)
  }

  function Signature(items: seq<Item>): seq<bv8>
    requires forall i :: i in items ==> ItemCompressible(i)
  {
    if items == [] then [] else CompressedItem(items[0]) + Signature(items[1..])
  }

  /** Reads the values of the given kinds, one behind the other. */
  function ReadSignature(kinds: seq<Kind>, data: seq<bv8>): Uncompressed<seq<bv32>>
    decreases |kinds|
  {
    if kinds == [] then Uncompressed([], 0)
    else if data == [] then BadSignature
    else
      match UncompressItem(kinds[0], data)
      case BadSignature => BadSignature
      case Uncompressed(x, size) =>
        if size > |data| then BadSignature
        else
          match ReadSignature(kinds[1..], data[size..])
          case BadSignature => BadSignature
          case Uncompressed(xs, rest) => Uncompressed([x] + xs, size + rest)
  }

  function KindsOf(items: seq<Item>): (ks: seq<Kind>)
    ensures |ks| == |items|
  {
    seq(|items|, i requires 0 <= i < |items| => items[i].kind)
  }

  function ValuesOf(items: seq<Item>): (vs: seq<bv32>)
    ensures |vs| == |items|
  {
    seq(|items|, i requires 0 <= i < |items| => items[i].value)
  }

  lemma ItemBack(i: Item, rest: seq<bv8>)
    requires ItemCompressible(i)
    ensures var data := CompressedItem(i) + rest;
            |CompressedItem(i)| > 0 && UncompressItem(i.kind, data) == Uncompressed(i.value, |CompressedItem(i)|)
  {
    hide Compressed, CompressedSigned, CompressedToken, Uncompress, UncompressSigned, UncompressToken, KnownType;
    match i.kind
    case UnsignedInteger => UncompressCompressed(i.value, rest); SomeBytes(i);
    case SignedInteger => UncompressCompressedSigned(i.value, rest); SomeBytes(i);
    case TypeToken => UncompressCompressedToken(i.value, rest); SomeBytes(i);
  }

  lemma SomeBytes(i: Item)
    requires ItemCompressible(i)
    ensures |CompressedItem(i)| > 0
  {
  }

  /** Any sequence of compressed items is read back item by item. */
  lemma {:induction false} SignatureBack(items: seq<Item>, rest: seq<bv8>)
    requires forall i :: i in items ==> ItemCompressible(i)
    ensures ReadSignature(KindsOf(items), Signature(items) + rest) == Uncompressed(ValuesOf(items), |Signature(items)|)
    decreases |items|
  {
    hide ItemCompressible, CompressedItem, UncompressItem;
    if items != [] {
      var b, tail := CompressedItem(items[0]), Signature(items[1..]);
      var data := Signature(items) + rest;
      assert data == b + (tail + rest) && data[|b|..] == tail + rest;
      ItemBack(items[0], tail + rest);
      SignatureBack(items[1..], rest);
      assert KindsOf(items)[1..] == KindsOf(items[1..]) && KindsOf(items)[0] == items[0].kind;
      assert ValuesOf(items) == [items[0].value] + ValuesOf(items[1..]);
    }
  }

  // The compressors write to memory

  /** The bytes `x` have been written at `at`. */
  predicate WrittenAt(was: seq<bv8>, now: seq<bv8>, at: nat, x: seq<bv8>) {
    at + |x| <= |was| && now == was[..at] + x + was[at + |x|..]
  }

  method WriteOne(iLen: bv32, pBytes: array<bv8>, at: nat)
    requires at + 1 <= pBytes.Length
    modifies pBytes
    ensures WrittenAt(old(pBytes[..]), pBytes[..], at, InOneByte(iLen))
  {
    hide Byte;
    pBytes[at] := Byte(iLen);
  }

  method WriteTwo(iLen: bv32, pBytes: array<bv8>, at: nat)
    requires at + 2 <= pBytes.Length
    modifies pBytes
    ensures WrittenAt(old(pBytes[..]), pBytes[..], at, InTwoBytes(iLen))
  {
    hide Byte;
    pBytes[at] := Byte((iLen >> 8) | 0x80);
    pBytes[at + 1] := Byte(iLen & 0xff);
  }

  method WriteFour(iLen: bv32, pBytes: array<bv8>, at: nat)
    requires at + 4 <= pBytes.Length
    modifies pBytes
    ensures WrittenAt(old(pBytes[..]), pBytes[..], at, InFourBytes(iLen))
  {
    hide Byte;
    pBytes[at] := Byte((iLen >> 24) | 0xC0);
    pBytes[at + 1] := Byte((iLen >> 16) & 0xff);
    pBytes[at + 2] := Byte((iLen >> 8) & 0xff);
    pBytes[at + 3] := Byte(iLen & 0xff);
  }

  /** Returns the number of bytes written, or -1 if the value is too large. */
  method CorSigCompressData(iLen: bv32, pDataOut: array<bv8>, at: nat) returns (size: int)
    requires at + 4 <= pDataOut.Length
    modifies pDataOut
    ensures size == -1 <==> !Compressible(iLen)
    ensures size == -1 ==> pDataOut[..] == old(pDataOut[..])
    ensures size != -1 ==> size == |Compressed(iLen)| && WrittenAt(old(pDataOut[..]), pDataOut[..], at, Compressed(iLen))
  {
    hide InOneByte, InTwoBytes, InFourBytes, WrittenAt;
    if iLen <= 0x7F {
      WriteOne(iLen, pDataOut, at);
      return 1;
    }
    if iLen <= 0x3FFF {
      WriteTwo(iLen, pDataOut, at);
      return 2;
    }
    if iLen <= 0x1FFFFFFF {
      WriteFour(iLen, pDataOut, at);
      return 4;
    }
    return -1;
  }

  method CorSigCompressToken(tk: bv32, pDataOut: array<bv8>, at: nat) returns (size: int)
    requires at + 4 <= pDataOut.Length
    modifies pDataOut
    ensures size == |CompressedToken(tk)| && WrittenAt(old(pDataOut[..]), pDataOut[..], at, CompressedToken(tk))
  {
    hide Compressed, WrittenAt, TokenData;
    TokenCompressible(tk);
    size := CorSigCompressData(TokenData(tk), pDataOut, at);
  }

  method CorSigCompressSignedInt(iData: bv32, pDataOut: array<bv8>, at: nat) returns (size: int)
    requires at + 4 <= pDataOut.Length
    modifies pDataOut
    ensures size == -1 <==> !CompressibleSigned(iData)
    ensures size == -1 ==> pDataOut[..] == old(pDataOut[..])
    ensures size != -1 ==> size == |CompressedSigned(iData)| && WrittenAt(old(pDataOut[..]), pDataOut[..], at, CompressedSigned(iData))
  {
    hide InOneByte, InTwoBytes, InFourBytes, WrittenAt, Rotated, FitsUnder;
    SmallerMasks(iData);
    if FitsUnder(iData, SIGN_MASK_ONEBYTE) {
      WriteOne(Rotated(iData, SIGN_MASK_ONEBYTE), pDataOut, at);
      return 1;
    } else if FitsUnder(iData, SIGN_MASK_TWOBYTE) {
      WriteTwo(Rotated(iData, SIGN_MASK_TWOBYTE), pDataOut, at);
      return 2;
    } else if FitsUnder(iData, SIGN_MASK_FOURBYTE) {
      WriteFour(Rotated(iData, SIGN_MASK_FOURBYTE), pDataOut, at);
      return 4;
    }
    return -1;
  }

  lemma SmallerMasks(x: bv32)
    ensures FitsUnder(x, SIGN_MASK_ONEBYTE) ==> FitsUnder(x, SIGN_MASK_TWOBYTE)
    ensures FitsUnder(x, SIGN_MASK_TWOBYTE) ==> FitsUnder(x, SIGN_MASK_FOURBYTE)
  {
    hide FitsUnder;
    SmallerMask1(x);
    SmallerMask2(x);
  }

  lemma SmallerMask1(x: bv32)
    ensures FitsUnder(x, SIGN_MASK_ONEBYTE) ==> FitsUnder(x, SIGN_MASK_TWOBYTE)
  {
    ShorterMask(x, SIGN_MASK_ONEBYTE, SIGN_MASK_TWOBYTE);
  }

  lemma SmallerMask2(x: bv32)
    ensures FitsUnder(x, SIGN_MASK_TWOBYTE) ==> FitsUnder(x, SIGN_MASK_FOURBYTE)
  {
    ShorterMask(x, SIGN_MASK_TWOBYTE, SIGN_MASK_FOURBYTE);
  }

  lemma ShorterMask(x: bv32, mask: bv32, less: bv32)
    requires less & mask == less
    ensures Masked(x, mask) == 0 ==> Masked(x, less) == 0
    ensures Masked(x, mask) == mask ==> Masked(x, less) == less
  {
  }
}
