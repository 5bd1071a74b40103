/** Where the bytes of an instruction stand and what they say, byte by byte (sections III.1.9 and III.3 of ECMA-335). */
module CodeLayout {
  import opened Bytes
  import opened Opcodes
  import opened Listings
  import opened Codec

  // Numbers in bytes

  function Unsigned4(b: seq<byte>, o: nat): nat
    requires o + 4 <= |b|
  {
    b[o] as int + 0x100 * (b[o + 1] as int) + 0x1_0000 * (b[o + 2] as int) + 0x100_0000 * (b[o + 3] as int)
  }

  function Signed4(b: seq<byte>, o: nat): int
    requires o + 4 <= |b|
  {
    if Unsigned4(b, o) < 0x8000_0000 then Unsigned4(b, o) else Unsigned4(b, o) - 0x1_0000_0000
  }

  function Signed1(b: seq<byte>, o: nat): int
    requires o < |b|
  {
    if b[o] < 128 then b[o] else b[o] as int - 256
  }

  lemma FromFour(x: seq<byte>)
    requires |x| == 4
    ensures FromLE(x) == Unsigned4(x, 0) && Signed(FromLE(x), 4) == Signed4(x, 0)
  {
    Powers();
    assert x[1..][1..] == x[2..] && x[2..][1..] == x[3..] && x[3..][1..] == [];
    assert FromLE(x[3..]) == x[3] && FromLE(x[2..]) == x[2] as int + 256 * (x[3] as int);
  }

  lemma FromOne(x: seq<byte>)
    requires |x| == 1
    ensures FromLE(x) == x[0] && Signed(FromLE(x), 1) == Signed1(x, 0)
  {
    Powers();
  }

  lemma FourAt(b: seq<byte>, o: nat)
    requires o + 4 <= |b|
    ensures FromLE(b[o..o + 4]) == Unsigned4(b, o) && Signed(FromLE(b[o..o + 4]), 4) == Signed4(b, o)
  {
    hide FromLE, Signed;
    FromFour(b[o..o + 4]);
  }

  lemma OneAt(b: seq<byte>, o: nat)
    requires o < |b|
    ensures Signed(FromLE(b[o..o + 1]), 1) == Signed1(b, o)
  {
    hide FromLE, Signed;
    FromOne(b[o..o + 1]);
  }

  // Instructions in bytes

  /** The bytes of decoded code. */
  lemma DecodedHolds(b: seq<byte>)
    requires |b| < TWO_TO_THE_31 && Decode(b).Decoded?
    ensures var c := Decode(b).code;
            && Shaped(c) && Targeted(c) && Canonical(c) && Encodable(Placed(c)) && Holds(b, Placed(c)) && CodeSize(c) == |b|
  {
    hide Decode, Canonical, Encodable, Holds, Encode;
    EncodeDecode(b);
    PlacedEncodable(Decode(b).code);
  }

  /** The opcode and the operand of the instruction at `i`. */
  lemma PartsAt(b: seq<byte>, c: Code, i: nat)
    requires Shaped(c) && Targeted(c) && Encodable(Placed(c)) && Holds(b, Placed(c)) && i < |c|
    ensures var o := Off(c, i); var o' := o + OpcodeSize(c[i].op); var k := OperandSize(c[i].op);
            && o' + k == Off(c, i + 1) <= |b| && (IsEncodable(c[i].op) || c[i].op == CEE_SWITCH_ARG) && b[o..o'] == OpcodeBytes(c[i].op)
            && (InSigned(OperandValue(Placed(c), i), k) ==> Signed(FromLE(b[o'..o' + k]), k) == OperandValue(Placed(c), i))
  {
    hide Holds, Encodable, OpcodeBytes, OpcodeSize, OperandSize, OperandValue, LE, FromLE, InSigned, Signed, Shaped;
    PlacedShape(c);
    EncodableIsShaped(Placed(c));
    ChunkParts(b, Placed(c), i);
    ShapeAt(c, i);
    var k := OperandSize(c[i].op);
    if InSigned(OperandValue(Placed(c), i), k) { OperandReadBack(OperandValue(Placed(c), i), k); }
  }

  lemma EncodableIsShaped(c: Code)
    requires Encodable(c)
    ensures Shaped(c)
  {
  }

  lemma ShapeAt(c: Code, i: nat)
    requires Shaped(c) && i < |c|
    ensures IsEncodable(c[i].op) || c[i].op == CEE_SWITCH_ARG
    ensures c[i].arg.Target? <==> HasTarget(c[i].op)
    ensures c[i].op == CEE_SWITCH ==> HasArms(c, i)
  {
    assert ShapedAt(c, i);
  }

  /** One byte for opcodes below 0x100, and 0xFE in front of the second byte of the others. */
  lemma OpcodeBytesAt(b: seq<byte>, i: nat)
    requires |b| < TWO_TO_THE_31 && Decode(b).Decoded? && i < |Decode(b).code|
    ensures var c := Decode(b).code; var o, op := Off(c, i), c[i].op;
            && (0 <= op < 0x100 ==> o < |b| && b[o] == op)
            && (0x100 <= op < CEE_COUNT ==> o + 1 < |b| && b[o] == 0xFE && b[o + 1] == op - 0x100)
            && (0 <= op < 0xF8 || op == 0xFF || 0x100 <= op <= 0x125 || op == CEE_SWITCH_ARG)
  {
    hide Decode, Canonical, Encodable, Holds, Signed, FromLE, OperandValue, OperandSize, InSigned, Off, Shaped;
    var c := Decode(b).code;
    DecodedHolds(b);
    PartsAt(b, c, i);
    var o := Off(c, i);
    var x := b[o..o + OpcodeSize(c[i].op)];
    assert |x| > 0 ==> x[0] == b[o];
    assert |x| > 1 ==> x[1] == b[o + 1];
  }

  /** A branch holds the distance from its end to its target, in one byte or in four. */
  lemma BranchBytesAt(b: seq<byte>, i: nat)
    requires |b| < TWO_TO_THE_31 && Decode(b).Decoded? && i < |Decode(b).code|
    ensures var c := Decode(b).code; var o, op := Off(c, i), c[i].op;
            && (0x2B <= op <= 0x37 || op == 0xDE ==>
                  && c[i].arg.Target? && c[i].arg.node <= |c| && o + 2 == Off(c, i + 1) <= |b|
                  && Off(c, c[i].arg.node) == o + 2 + Signed1(b, o + 1))
            && (0x38 <= op <= 0x44 || op == 0xDD ==>
                  && c[i].arg.Target? && c[i].arg.node <= |c| && o + 5 == Off(c, i + 1) <= |b|
                  && Off(c, c[i].arg.node) == o + 5 + Signed4(b, o + 1))
  {
    hide Decode, Canonical, Encodable, Holds, Signed, FromLE, InSigned, Off, Shaped, OpcodeBytes;
    var c := Decode(b).code;
    DecodedHolds(b);
    PartsAt(b, c, i);
    ShapeAt(c, i);
    var o := Off(c, i);
    if HasTarget(c[i].op) && c[i].op != CEE_SWITCH_ARG {
      BranchReaches(b, c, i);
      if IsShortBranch(c[i].op) { OneAt(b, o + 1); } else { FourAt(b, o + 1); }
    }
  }

  lemma BranchReaches(b: seq<byte>, c: Code, i: nat)
    requires Shaped(c) && Targeted(c) && Encodable(Placed(c)) && CodeSize(c) < TWO_TO_THE_31 && i < |c|
    requires HasTarget(c[i].op) && c[i].op != CEE_SWITCH_ARG && c[i].arg.Target?
    ensures c[i].arg.node <= |c| && OperandValue(Placed(c), i) == Off(c, c[i].arg.node) - Off(c, i + 1)
    ensures InSigned(OperandValue(Placed(c), i), OperandSize(c[i].op))
  {
    hide Shaped, Off, Canonical;
    PlacedShape(c);
    OffGrows(c, c[i].arg.node, |c|);
    OffGrows(c, i + 1, |c|);
    Powers();
    assert Reaches(Placed(c), i);
  }

  /** A `switch` holds the number of its arms, and every arm the distance from the end of the table to its target. */
  lemma SwitchBytesAt(b: seq<byte>, i: nat, j: nat)
    requires |b| < TWO_TO_THE_31 && Decode(b).Decoded? && i < |Decode(b).code| && Decode(b).code[i].op == 0x45
    ensures var c := Decode(b).code; var o := Off(c, i);
            && o + 5 == Off(c, i + 1) <= |b| && c[i].arg == Bits(Unsigned4(b, o + 1)) && i + Unsigned4(b, o + 1) < |c|
            && (j < Unsigned4(b, o + 1) ==>
                  var x := c[i + 1 + j]; var table := o + 5 + 4 * Unsigned4(b, o + 1);
                  && o + 5 + 4 * j + 4 <= table <= |b| && Off(c, i + 1 + j) == o + 5 + 4 * j
                  && x.op == CEE_SWITCH_ARG && x.arg.Target? && x.arg.node <= |c|
                  && Off(c, x.arg.node) == table + Signed4(b, o + 5 + 4 * j))
  {
    hide Decode, Canonical, Encodable, Holds, Signed, FromLE, InSigned, Off, Shaped, OpcodeBytes;
    var c := Decode(b).code;
    DecodedHolds(b);
    ShapeAt(c, i);
    var n := c[i].arg.value;
    ArmsBase(c, i, i + 1 + n);
    OffGrows(c, i + 1 + n, |c|);
    CountAt(b, c, i);
    if j < n {
      ArmAt(b, c, i, j);
    }
  }

  lemma CountAt(b: seq<byte>, c: Code, i: nat)
    requires Shaped(c) && Targeted(c) && Encodable(Placed(c)) && Holds(b, Placed(c)) && i < |c| && c[i].op == CEE_SWITCH && HasArms(c, i)
    requires c[i].arg.value < TWO_TO_THE_31
    ensures Off(c, i) + 5 == Off(c, i + 1) <= |b| && c[i].arg == Bits(Unsigned4(b, Off(c, i) + 1))
  {
    hide Canonical, Encodable, Holds, FromLE, Off, Shaped, OpcodeBytes;
    Powers();
    PartsAt(b, c, i);
    FourAt(b, Off(c, i) + 1);
  }

  lemma ArmAt(b: seq<byte>, c: Code, i: nat, j: nat)
    requires Shaped(c) && Targeted(c) && Encodable(Placed(c)) && Holds(b, Placed(c)) && CodeSize(c) == |b| < TWO_TO_THE_31
    requires i < |c| && c[i].op == CEE_SWITCH && HasArms(c, i) && j < c[i].arg.value
    ensures var x := c[i + 1 + j]; var table := Off(c, i) + 5 + 4 * c[i].arg.value;
            && Off(c, i + 1 + j) == Off(c, i) + 5 + 4 * j && Off(c, i) + 5 + 4 * j + 4 <= |b|
            && x.op == CEE_SWITCH_ARG && x.arg.Target? && x.arg.node <= |c|
            && Off(c, x.arg.node) == table + Signed4(b, Off(c, i) + 5 + 4 * j)
  {
    hide Canonical, Encodable, Holds, FromLE, Off, Shaped, OpcodeBytes, SwitchBase, Signed;
    var k := i + 1 + j;
    ArmsBase(c, i, k);
    ArmsBase(c, i, k + 1);
    PartsAt(b, c, k);
    ShapeAt(c, k);
    PlacedShape(c);
    SameBase(c, k);
    OffGrows(c, c[k].arg.node, |c|);
    OffGrows(c, i + 1 + c[i].arg.value, |c|);
    ArmsBase(c, i, i + 1 + c[i].arg.value);
    Powers();
    FourAt(b, Off(c, k));
  }

  lemma {:induction false} SameBase(c: Code, i: nat)
    requires Targeted(c) && i <= |c|
    ensures SwitchBase(Placed(c), i) == SwitchBase(c, i)
  {
    if i > 0 {
      SameBase(c, i - 1);
      SameSizes(Placed(c), c, i - 1);
    }
  }

  /** Other operands are signed numbers behind the opcode. */
  lemma OperandBytesAt(b: seq<byte>, i: nat)
    requires |b| < TWO_TO_THE_31 && Decode(b).Decoded? && i < |Decode(b).code|
    requires var op := Decode(b).code[i].op; !(0x2B <= op <= 0x45) && op != 0xDD && op != 0xDE && op != CEE_SWITCH_ARG
    ensures var c := Decode(b).code; var o, op, k := Off(c, i), c[i].op, OperandSize(c[i].op);
            var o' := if op < 0x100 then o + 1 else o + 2;
            && o' + k == Off(c, i + 1) <= |b| && c[i].arg == Bits(Signed(FromLE(b[o'..o' + k]), k))
            && (k == 1 ==> c[i].arg == Bits(Signed1(b, o'))) && (k == 4 ==> c[i].arg == Bits(Signed4(b, o')))
  {
    hide Decode, Encodable, Holds, Signed, FromLE, InSigned, Off, Shaped, OpcodeBytes, OperandSize;
    var c := Decode(b).code;
    DecodedHolds(b);
    PartsAt(b, c, i);
    ShapeAt(c, i);
    assert CanonicalAt(c[i]);
    var o' := if c[i].op < 0x100 then Off(c, i) + 1 else Off(c, i) + 2;
    var k := OperandSize(c[i].op);
    if k == 1 { OneAt(b, o'); }
    if k == 4 { FourAt(b, o'); }
  }

  function Zeros(k: nat): (z: seq<byte>)
    ensures |z| == k
  {
    seq(k, i requires 0 <= i < k => 0)
  }

  lemma {:induction false} ZeroBytes(k: nat)
    ensures LE(0, k) == Zeros(k)
    decreases k
  {
    if k > 0 {
      ZeroBytes(k - 1);
      assert Zeros(k) == [0] + Zeros(k - 1);
    }
  }

  /** All opcodes are accepted but those from 0xF8 to 0xFE, and two bytes from 0x126 on. */
  lemma OneInstruction(op: int)
    requires 0 <= op < 0xF8 || op == 0xFF || 0x100 <= op <= 0x125
    requires !(0x2B <= op <= 0x45) && op != 0xDD && op != 0xDE
    ensures Decode((if op < 0x100 then [op] else [0xFE, op - 0x100]) + Zeros(OperandSize(op))) == Decoded([Instr(op, Bits(0))])
  {
    hide Decode, LE, OperandSize, InSigned;
    var c: Code := [Instr(op, Bits(0))];
    ZeroFits(OperandSize(op));
    assert Shaped(c);
    assert Off(c, 1) == Off(c, 0) + Size(op);
    SmallSize(op);
    PlacedShape(c);
    assert Placed(c) == c;
    ZeroBytes(OperandSize(op));
    assert Encode(c) == EncodeFrom(c, 0) == Chunk(c, 0) + EncodeFrom(c, 1);
    assert EncodeFrom(c, 1) == [];
    assert Chunk(c, 0) == OpcodeBytes(op) + Zeros(OperandSize(op));
    assert Encode(c) == OpcodeBytes(op) + Zeros(OperandSize(op));
    assert OpcodeBytes(op) == if op < 0x100 then [op] else [0xFE, op - 0x100];
    DecodeCanonical(c);
  }

  lemma ZeroFits(k: nat)
    ensures InSigned(0, k)
  {
  }

  lemma SmallSize(op: int)
    ensures OperandSize(op) <= 8
  {
  }
}
