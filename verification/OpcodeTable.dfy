/** The table of opcodes, sixteen to a line.  It says of every opcode what its operand is and how much it pushes, as
    sections III.3 and III.4 of ECMA-335 do. */
module OpcodeTable {
  import opened Opcodes

  /** The bytes of the operand, `b` and `B` for the target of a short and of a long branch. */
  function Operands(row: nat): string {
    match row
    case 0 => "0000000000000011"
    case 1 => "1111000000000001"
    case 2 => "48480004440bbbbb"
    case 3 => "bbbbbbbbBBBBBBBB"
    case 4 => "BBBBB40000000000"
    case 5 => "0000000000000000"
    case 6 => "0000000000000004"
    case 7 => "4444440004044444"
    case 8 => "4400000000004404"
    case 9 => "0000000000000000"
    case 10 => "0004440000000000"
    case 11 => "0000000000000000"
    case 12 => "0040004000000000"
    case 13 => "4000000000000Bb0"
    case 14 => "0000000000000000"
    case 15 => "0000000000000000"
    case 16 => "0000004402222220"
    case 17 => "0010044000004000"
    case _ => "000000"
  }

  /** The values pushed; one for a call, whatever it returns. */
  function PushCounts(row: nat): string {
    match row
    case 0 => "0011111111000011"
    case 1 => "0110111111111111"
    case 2 => "1111020011000000"
    case 3 => "0000000000000000"
    case 4 => "0000001111111111"
    case 5 => "1000000011111111"
    case 6 => "1111111111111111"
    case 7 => "0111111001011011"
    case 8 => "0011111111111111"
    case 9 => "1111111111100000"
    case 10 => "0001010000000000"
    case 11 => "0001111111100000"
    case 12 => "0011001000000000"
    case 13 => "1111111111110000"
    case 14 => "1000000000000000"
    case 15 => "0000000000000000"
    case 16 => "1111111101101101"
    case 17 => "0000000000001100"
    case _ => "000000"
  }

  function DigitValue(c: char): int {
    c as int - '0' as int
  }

  /** The entry of `c` says what operand the opcode has. */
  predicate Describes(c: char, op: int) {
    if c == 'b' then HasTarget(op) && OperandSize(op) == 1
    else if c == 'B' then HasTarget(op) && OperandSize(op) == 4
    else !HasTarget(op) && OperandSize(op) == DigitValue(c)
  }

  /** Operands and pushes are those of the table, for every opcode. */
  lemma TableHolds(op: int)
    requires 0 <= op < CEE_COUNT
    ensures var row, k := op / 16, op % 16;
            && k < |Operands(row)| && k < |PushCounts(row)|
            && Describes(Operands(row)[k], op) && Pushes(op) == DigitValue(PushCounts(row)[k])
  {
    hide Operands, PushCounts, Describes, DigitValue, Pushes;
    var k := op % 16;
    match op / 16
    case 0 => Row0(k);
    case 1 => Row1(k);
    case 2 => Row2(k);
    case 3 => Row3(k);
    case 4 => Row4(k);
    case 5 => Row5(k);
    case 6 => Row6(k);
    case 7 => Row7(k);
    case 8 => Row8(k);
    case 9 => Row9(k);
    case 10 => Row10(k);
    case 11 => Row11(k);
    case 12 => Row12(k);
    case 13 => Row13(k);
    case 14 => Row14(k);
    case 15 => Row15(k);
    case 16 => Row16(k);
    case 17 => Row17(k);
    case _ => Row18(k);
  }

  lemma Row0(k: nat)
    requires k < 16
    ensures |Operands(0)| == |PushCounts(0)| == 16
    ensures Describes(Operands(0)[k], 0 + k) && Pushes(0 + k) == DigitValue(PushCounts(0)[k])
  {
  }

  lemma Row1(k: nat)
    requires k < 16
    ensures |Operands(1)| == |PushCounts(1)| == 16
    ensures Describes(Operands(1)[k], 16 + k) && Pushes(16 + k) == DigitValue(PushCounts(1)[k])
  {
  }

  lemma Row2(k: nat)
    requires k < 16
    ensures |Operands(2)| == |PushCounts(2)| == 16
    ensures Describes(Operands(2)[k], 32 + k) && Pushes(32 + k) == DigitValue(PushCounts(2)[k])
  {
  }

  lemma Row3(k: nat)
    requires k < 16
    ensures |Operands(3)| == |PushCounts(3)| == 16
    ensures Describes(Operands(3)[k], 48 + k) && Pushes(48 + k) == DigitValue(PushCounts(3)[k])
  {
  }

  lemma Row4(k: nat)
    requires k < 16
    ensures |Operands(4)| == |PushCounts(4)| == 16
    ensures Describes(Operands(4)[k], 64 + k) && Pushes(64 + k) == DigitValue(PushCounts(4)[k])
  {
  }

  lemma Row5(k: nat)
    requires k < 16
    ensures |Operands(5)| == |PushCounts(5)| == 16
    ensures Describes(Operands(5)[k], 80 + k) && Pushes(80 + k) == DigitValue(PushCounts(5)[k])
  {
  }

  lemma Row6(k: nat)
    requires k < 16
    ensures |Operands(6)| == |PushCounts(6)| == 16
    ensures Describes(Operands(6)[k], 96 + k) && Pushes(96 + k) == DigitValue(PushCounts(6)[k])
  {
  }

  lemma Row7(k: nat)
    requires k < 16
    ensures |Operands(7)| == |PushCounts(7)| == 16
    ensures Describes(Operands(7)[k], 112 + k) && Pushes(112 + k) == DigitValue(PushCounts(7)[k])
  {
  }

  lemma Row8(k: nat)
    requires k < 16
    ensures |Operands(8)| == |PushCounts(8)| == 16
    ensures Describes(Operands(8)[k], 128 + k) && Pushes(128 + k) == DigitValue(PushCounts(8)[k])
  {
  }

  lemma Row9(k: nat)
    requires k < 16
    ensures |Operands(9)| == |PushCounts(9)| == 16
    ensures Describes(Operands(9)[k], 144 + k) && Pushes(144 + k) == DigitValue(PushCounts(9)[k])
  {
  }

  lemma Row10(k: nat)
    requires k < 16
    ensures |Operands(10)| == |PushCounts(10)| == 16
    ensures Describes(Operands(10)[k], 160 + k) && Pushes(160 + k) == DigitValue(PushCounts(10)[k])
  {
  }

  lemma Row11(k: nat)
    requires k < 16
    ensures |Operands(11)| == |PushCounts(11)| == 16
    ensures Describes(Operands(11)[k], 176 + k) && Pushes(176 + k) == DigitValue(PushCounts(11)[k])
  {
  }

  lemma Row12(k: nat)
    requires k < 16
    ensures |Operands(12)| == |PushCounts(12)| == 16
    ensures Describes(Operands(12)[k], 192 + k) && Pushes(192 + k) == DigitValue(PushCounts(12)[k])
  {
  }

  lemma Row13(k: nat)
    requires k < 16
    ensures |Operands(13)| == |PushCounts(13)| == 16
    ensures Describes(Operands(13)[k], 208 + k) && Pushes(208 + k) == DigitValue(PushCounts(13)[k])
  {
  }

  lemma Row14(k: nat)
    requires k < 16
    ensures |Operands(14)| == |PushCounts(14)| == 16
    ensures Describes(Operands(14)[k], 224 + k) && Pushes(224 + k) == DigitValue(PushCounts(14)[k])
  {
  }

  lemma Row15(k: nat)
    requires k < 16
    ensures |Operands(15)| == |PushCounts(15)| == 16
    ensures Describes(Operands(15)[k], 240 + k) && Pushes(240 + k) == DigitValue(PushCounts(15)[k])
  {
  }

  lemma Row16(k: nat)
    requires k < 16
    ensures |Operands(16)| == |PushCounts(16)| == 16
    ensures Describes(Operands(16)[k], 256 + k) && Pushes(256 + k) == DigitValue(PushCounts(16)[k])
  {
  }

  lemma Row17(k: nat)
    requires k < 16
    ensures |Operands(17)| == |PushCounts(17)| == 16
    ensures Describes(Operands(17)[k], 272 + k) && Pushes(272 + k) == DigitValue(PushCounts(17)[k])
  {
  }

  lemma Row18(k: nat)
    requires k < 6
    ensures |Operands(18)| == |PushCounts(18)| == 6
    ensures Describes(Operands(18)[k], 288 + k) && Pushes(288 + k) == DigitValue(PushCounts(18)[k])
  {
  }

}
