/** The bytes of a method's code.  Code is a sequence of instructions; a branch operand is either the index of its
    target or, once the code is placed, the byte offset of the target.  In both cases the end of the code is a
    target too. */
module Codec {
  import opened Bytes
  import opened Opcodes
  import opened Listings

  type Code = seq<Instr<nat>>

  datatype Decoded = Decoded(code: Code) | InvalidProgram | NoInstruction

  /** What one round of the decoder's loop yields: an instruction, with all its arms if it is a `switch`. */
  datatype Parsed = Parsed(code: Code, next: nat) | Malformed

  // Layout

  function Off(c: Code, i: nat): nat
    requires i <= |c|
  {
    if i == 0 then 0 else Off(c, i - 1) + Size(c[i - 1].op)
  }

  function CodeSize(c: Code): nat {
    Off(c, |c|)
  }

  /** The end of the jump table of the last `switch` in front of `i`. */
  function SwitchBase(c: Code, i: nat): int
    requires i <= |c|
  {
    if i == 0 then 0
    else if c[i - 1].op == CEE_SWITCH && c[i - 1].arg.Bits? then Off(c, i - 1) + 1 + 4 * (c[i - 1].arg.value + 1)
    else SwitchBase(c, i - 1)
  }

  /** The offset that a branch operand is relative to. */
  function Base(c: Code, i: nat): int
    requires i < |c|
  {
    if c[i].op == CEE_SWITCH_ARG then SwitchBase(c, i) else Off(c, i + 1)
  }

  predicate HasArms(c: Code, i: nat)
    requires i < |c|
  {
    && c[i].arg.Bits? && 0 <= c[i].arg.value && i + 1 + c[i].arg.value <= |c|
    && (forall j :: i < j < i + 1 + c[i].arg.value ==> c[j].op == CEE_SWITCH_ARG)
    && (i + 1 + c[i].arg.value < |c| ==> c[i + 1 + c[i].arg.value].op != CEE_SWITCH_ARG)
  }

  predicate ShapedAt(c: Code, i: nat)
    requires i < |c|
  {
    var x := c[i];
    && (IsEncodable(x.op) || x.op == CEE_SWITCH_ARG)
    && (x.arg.Target? <==> HasTarget(x.op))
    && (x.op == CEE_SWITCH ==> HasArms(c, i))
    && (x.op == CEE_SWITCH_ARG ==> i > 0 && (c[i - 1].op == CEE_SWITCH || c[i - 1].op == CEE_SWITCH_ARG))
  }

  /** Operands are targets where the opcode wants targets, and arms occur behind their `switch` only. */
  predicate Shaped(c: Code) {
    forall i :: 0 <= i < |c| ==> ShapedAt(c, i)
  }

  /** Every operand fits the bytes that hold it. */
  predicate Canonical(c: Code) {
    forall i :: 0 <= i < |c| ==> CanonicalAt(c[i])
  }

  predicate CanonicalAt(x: Instr<nat>) {
    x.arg.Bits? && x.op != CEE_SWITCH ==> InSigned(x.arg.value, OperandSize(x.op))
  }

  /** The code with every operand cut down to the bytes that hold it. */
  function Normal(c: Code): (d: Code)
    ensures |d| == |c| && forall i :: 0 <= i < |c| ==> d[i].op == c[i].op
  {
    seq(|c|, i requires 0 <= i < |c| => Instr(c[i].op, NormalOperand(c[i])))
  }

  function NormalOperand(x: Instr<nat>): Operand<nat> {
    if x.arg.Target? || x.op == CEE_SWITCH then x.arg
    else var k := OperandSize(x.op); Bits(Signed(x.arg.value % Pow256(k), k))
  }

  /** An instruction can start at index `i`; the arms of a `switch` are operands. */
  predicate Starts(c: Code, i: nat) {
    i < |c| ==> c[i].op != CEE_SWITCH_ARG
  }

  /** Branches lead to instructions or to the end of the code. */
  predicate Targeted(c: Code) {
    forall i :: 0 <= i < |c| && c[i].arg.Target? ==> c[i].arg.node <= |c| && Starts(c, c[i].arg.node)
  }

  /** The code with byte offsets for targets. */
  function Placed(c: Code): (r: Code)
    requires Targeted(c)
    ensures |r| == |c|
  {
    seq(|c|, i requires 0 <= i < |c| =>
      if c[i].arg.Target? then Instr(c[i].op, Target(Off(c, c[i].arg.node))) else c[i])
  }

  // Encoding placed code

  function OpcodeBytes(op: int): (b: seq<byte>)
    requires IsEncodable(op) || op == CEE_SWITCH_ARG
    ensures |b| == OpcodeSize(op)
  {
    if op == CEE_SWITCH_ARG then [] else if op >= 0x100 then [CEE_PREFIX1, op - 0x100] else [op]
  }

  function OperandValue(c: Code, i: nat): int
    requires i < |c|
  {
    match c[i].arg
    case Target(t) => t - Base(c, i)
    case Bits(v) => v
  }

  function Chunk(c: Code, i: nat): (b: seq<byte>)
    requires i < |c| && ShapedAt(c, i)
    ensures |b| == Size(c[i].op)
  {
    OpcodeBytes(c[i].op) + LE(OperandValue(c, i), OperandSize(c[i].op))
  }

  function EncodeFrom(c: Code, i: nat): (b: seq<byte>)
    requires i <= |c| && Shaped(c)
    decreases |c| - i
  {
    if i == |c| then [] else assert ShapedAt(c, i); Chunk(c, i) + EncodeFrom(c, i + 1)
  }

  /** The code bytes of an instruction list. */
  function Encode(c: Code): seq<byte>
    requires Shaped(c) && Targeted(c)
  {
    PlacedShape(c);
    EncodeFrom(Placed(c), 0)
  }

  lemma {:induction false} SameSizes(c: Code, d: Code, i: nat)
    requires i <= |c| && i <= |d| && forall j :: 0 <= j < i ==> c[j].op == d[j].op
    ensures Off(c, i) == Off(d, i)
  {
    if i > 0 { SameSizes(c, d, i - 1); }
  }

  lemma {:induction false} PlacedShape(c: Code)
    requires Targeted(c)
    ensures Shaped(c) <==> Shaped(Placed(c))
    ensures forall i :: 0 <= i <= |c| ==> Off(Placed(c), i) == Off(c, i)
  {
    hide InSigned, IsEncodable, OperandSize, HasTarget, Off;
    var r := Placed(c);
    assert forall i :: 0 <= i < |c| ==> r[i].op == c[i].op;
    forall i | 0 <= i < |c| ensures ShapedAt(c, i) <==> ShapedAt(r, i) { }
    forall i | 0 <= i <= |c| ensures Off(r, i) == Off(c, i) { SameSizes(r, c, i); }
  }

  /** A short branch reaches its target. */
  predicate Reaches(c: Code, i: nat)
    requires i < |c|
  {
    IsShortBranch(c[i].op) ==> InSigned(OperandValue(c, i), 1)
  }

  /** Placed code whose operands the decoder reads back. */
  predicate Encodable(c: Code) {
    && Shaped(c) && Canonical(c) && CodeSize(c) < TWO_TO_THE_31
    && (forall i :: 0 <= i < |c| && c[i].arg.Target? ==> c[i].arg.node < TWO_TO_THE_32)
    && (forall i :: 0 <= i < |c| ==> Reaches(c, i))
  }

  lemma {:induction false} OffGrows(c: Code, i: nat, j: nat)
    requires i <= j <= |c|
    ensures Off(c, i) <= Off(c, j)
    decreases j - i
  {
    if i < j { OffGrows(c, i, j - 1); }
  }

  lemma {:induction false} OffGrowsStrictly(c: Code, i: nat, j: nat)
    requires Shaped(c) && i < j <= |c|
    ensures Off(c, i) < Off(c, j)
  {
    assert ShapedAt(c, i);
    OffGrows(c, i + 1, j);
    assert Off(c, i + 1) == Off(c, i) + Size(c[i].op);
  }

  /** The bytes of an instruction stand at its offset. */
  predicate HoldsAt(b: seq<byte>, c: Code, i: nat)
    requires i < |c| && ShapedAt(c, i)
  {
    Off(c, i + 1) <= |b| && b[Off(c, i)..Off(c, i + 1)] == Chunk(c, i)
  }

  predicate Holds(b: seq<byte>, c: Code)
    requires Shaped(c)
  {
    |b| == CodeSize(c) && forall i :: 0 <= i < |c| ==> ShapedAt(c, i) && HoldsAt(b, c, i)
  }

  lemma Cut(b: seq<byte>, i: nat, j: nat)
    requires i <= j <= |b|
    ensures b[i..] == b[i..j] + b[j..]
  {
  }

  lemma {:induction false} HoldsIsEncoding(b: seq<byte>, c: Code, i: nat)
    requires Shaped(c) && Holds(b, c) && i <= |c|
    ensures Off(c, i) <= |b| && b[Off(c, i)..] == EncodeFrom(c, i)
    decreases |c| - i
  {
    hide Chunk, ShapedAt, Shaped, Off;
    OffGrows(c, i, |c|);
    if i < |c| {
      HoldsIsEncoding(b, c, i + 1);
      OffGrows(c, i, i + 1);
      assert HoldsAt(b, c, i);
      Cut(b, Off(c, i), Off(c, i + 1));
    }
  }

  lemma {:induction false} HoldsLonger(b: seq<byte>, more: seq<byte>, c: Code, j: nat)
    requires j < |c| && ShapedAt(c, j) && HoldsAt(b, c, j)
    ensures HoldsAt(b + more, c, j)
  {
    hide Chunk, ShapedAt;
    OffGrows(c, j, j + 1);
    assert (b + more)[Off(c, j)..Off(c, j + 1)] == b[Off(c, j)..Off(c, j + 1)];
  }

  lemma {:induction false} HoldsNext(b: seq<byte>, c: Code, i: nat)
    requires i < |c| && ShapedAt(c, i) && |b| == Off(c, i)
    ensures HoldsAt(b + Chunk(c, i), c, i) && |b + Chunk(c, i)| == Off(c, i + 1)
  {
    hide Chunk, ShapedAt;
    assert (b + Chunk(c, i))[|b|..] == Chunk(c, i);
  }

  lemma {:induction false} EncodingHolds(c: Code, i: nat, b: seq<byte>)
    requires Shaped(c) && i <= |c| && |b| == Off(c, i)
    requires forall j :: 0 <= j < i ==> ShapedAt(c, j) && HoldsAt(b, c, j)
    ensures Holds(b + EncodeFrom(c, i), c)
    decreases |c| - i
  {
    hide Chunk, ShapedAt, HoldsAt;
    if i < |c| {
      assert ShapedAt(c, i);
      var b' := b + Chunk(c, i);
      forall j | 0 <= j < i + 1 ensures ShapedAt(c, j) && HoldsAt(b', c, j) {
        assert ShapedAt(c, j);
        if j < i { HoldsLonger(b, Chunk(c, i), c, j); } else { HoldsNext(b, c, i); }
      }
      HoldsNext(b, c, i);
      EncodingHolds(c, i + 1, b');
      assert b + (Chunk(c, i) + EncodeFrom(c, i + 1)) == b' + EncodeFrom(c, i + 1);
    } else {
      assert b + EncodeFrom(c, i) == b;
    }
  }

  // Decoding

  function ParseArms(b: seq<byte>, o: nat, base: int, n: nat): (p: Parsed)
    requires o <= |b|
    ensures p.Parsed? ==> o <= p.next <= |b|
    decreases n
  {
    if n == 0 then Parsed([], o)
    else if o + 4 > |b| then Malformed
    else
      match ParseArms(b, o + 4, base, n - 1)
      case Malformed => Malformed
      case Parsed(rest, next) =>
        Parsed([Instr(CEE_SWITCH_ARG, Target((base + Signed(FromLE(b[o..o + 4]), 4)) % TWO_TO_THE_32))] + rest, next)
  }

  function ParseOperand(b: seq<byte>, o: nat, op: int): (p: Parsed)
    requires o <= |b|
    ensures p.Parsed? ==> o <= p.next <= |b|
  {
    var size := if op == CEE_SWITCH then 0 else OperandSize(op);
    if o + size > |b| then Malformed
    else if op == CEE_SWITCH then
      if o + 4 > |b| then Malformed
      else
        var n := FromLE(b[o..o + 4]);
        match ParseArms(b, o + 4, (o + 4 + n * 4) % TWO_TO_THE_32, n)
        case Malformed => Malformed
        case Parsed(arms, next) => Parsed([Instr(op, Bits(n))] + arms, next)
    else
      var v := Signed(FromLE(b[o..o + size]), size);
      Parsed([Instr(op, if HasTarget(op) then Target((o + size + v) % TWO_TO_THE_32) else Bits(v))], o + size)
  }

  function ParseInstr(b: seq<byte>, o: nat): (p: Parsed)
    requires o < |b|
    ensures p.Parsed? ==> o < p.next <= |b|
  {
    if b[o] == CEE_PREFIX1 && o + 1 >= |b| then Malformed
    else
      var op: int := if b[o] == CEE_PREFIX1 then 0x100 + (b[o + 1] as int) else b[o] as int;
      var o' := if b[o] == CEE_PREFIX1 then o + 2 else o + 1;
      if CEE_PREFIX7 <= op <= CEE_PREFIX2 then Malformed
      else if op >= CEE_COUNT then Malformed
      else ParseOperand(b, o', op)
  }

  function ParseFrom(b: seq<byte>, o: nat): Decoded
    requires o <= |b|
    decreases |b| - o
  {
    if o == |b| then Decoded([])
    else
      match ParseInstr(b, o)
      case Malformed => InvalidProgram
      case Parsed(c, next) =>
        match ParseFrom(b, next)
        case Decoded(rest) => Decoded(c + rest)
        case other => other
  }

  /** The index of the instruction that starts at byte offset `o`, searched from the end; -1 if there is none. */
  function IndexOf(c: Code, o: nat, i: nat): (k: int)
    requires i <= |c|
    ensures k >= 0 ==> k <= i && Off(c, k) == o && Starts(c, k)
  {
    if Off(c, i) == o && Starts(c, i) then i
    else if i == 0 then -1
    else IndexOf(c, o, i - 1)
  }

  predicate Resolvable(c: Code) {
    forall i :: 0 <= i < |c| && c[i].arg.Target? ==> IndexOf(c, c[i].arg.node, |c|) >= 0
  }

  /** Placed code with indices for targets. */
  function Resolved(c: Code): (r: Code)
    requires Resolvable(c)
  {
    seq(|c|, i requires 0 <= i < |c| =>
      if c[i].arg.Target? then Instr(c[i].op, Target(IndexOf(c, c[i].arg.node, |c|))) else c[i])
  }

  function Decode(b: seq<byte>): Decoded {
    match ParseFrom(b, 0)
    case Decoded(c) => if Resolvable(c) then Decoded(Resolved(c)) else NoInstruction
    case other => other
  }

  // What the encoder writes, the decoder reads

  lemma ChunkParts(b: seq<byte>, c: Code, i: nat)
    requires Shaped(c) && Holds(b, c) && i < |c|
    ensures var o := Off(c, i); var o' := o + OpcodeSize(c[i].op);
            && o <= o' && o' + OperandSize(c[i].op) == Off(c, i + 1) <= |b|
            && ShapedAt(c, i)
            && b[o..o'] == OpcodeBytes(c[i].op)
            && b[o'..o' + OperandSize(c[i].op)] == LE(OperandValue(c, i), OperandSize(c[i].op))
  {
    hide OpcodeBytes, OpcodeSize, OperandSize, OperandValue, LE;
    assert ShapedAt(c, i) && HoldsAt(b, c, i);
    OffGrows(c, i + 1, |c|);
    var o, o' := Off(c, i), Off(c, i) + OpcodeSize(c[i].op);
    var chunk := b[o..Off(c, i + 1)];
    assert Off(c, i + 1) == o' + OperandSize(c[i].op);
    assert chunk == OpcodeBytes(c[i].op) + LE(OperandValue(c, i), OperandSize(c[i].op));
    assert b[o..o'] == chunk[..o' - o];
    assert b[o'..o' + OperandSize(c[i].op)] == chunk[o' - o..];
  }

  lemma OperandReadBack(v: int, k: nat)
    requires InSigned(v, k)
    ensures Signed(FromLE(LE(v, k)), k) == v
  {
    hide LE, FromLE;
    FromToLE(v, k);
    SignedRoundTrip(v, k);
  }

  lemma TargetReadBack(t: nat, base: nat)
    requires t < TWO_TO_THE_32
    ensures (base + Signed(FromLE(LE(t - base, 4)), 4)) % TWO_TO_THE_32 == t
    ensures (base % TWO_TO_THE_32 + Signed(FromLE(LE(t - base, 4)), 4)) % TWO_TO_THE_32 == t
  {
    hide LE, FromLE, Pow256;
    Powers();
    FromToLE(t - base, 4);
    var v := Signed((t - base) % TWO_TO_THE_32, 4);
    assert exists q: int :: v == t - base + TWO_TO_THE_32 * q by {
      assert v == t - base + TWO_TO_THE_32 * (-((t - base) / TWO_TO_THE_32))
          || v == t - base + TWO_TO_THE_32 * (-((t - base) / TWO_TO_THE_32) - 1);
    }
    var q: int :| v == t - base + TWO_TO_THE_32 * q;
    Congruent(t, TWO_TO_THE_32, q);
    Congruent(base + v, TWO_TO_THE_32, -(base / TWO_TO_THE_32));
  }

  lemma {:induction false} ArmsBase(c: Code, p: nat, j: nat)
    requires Shaped(c) && p < |c| && c[p].op == CEE_SWITCH && HasArms(c, p) && p < j <= p + 1 + c[p].arg.value
    ensures SwitchBase(c, j) == Off(c, p) + 5 + 4 * c[p].arg.value
    ensures Off(c, j) == Off(c, p) + 5 + 4 * (j - p - 1)
  {
    if j > p + 1 { ArmsBase(c, p, j - 1); }
  }

  lemma ArmReadBack(b: seq<byte>, c: Code, p: nat, j: nat)
    requires Encodable(c) && Holds(b, c)
    requires p < |c| && c[p].op == CEE_SWITCH && HasArms(c, p) && p < j < p + 1 + c[p].arg.value
    ensures var base := Off(c, p) + 5 + 4 * c[p].arg.value;
            && Off(c, j + 1) == Off(c, j) + 4 <= |b|
            && c[j] == Instr(CEE_SWITCH_ARG,
                             Target((base % TWO_TO_THE_32 + Signed(FromLE(b[Off(c, j)..Off(c, j) + 4]), 4)) % TWO_TO_THE_32))
  {
    hide Holds, LE, FromLE, Pow256, Chunk;
    ArmsBase(c, p, j);
    ChunkParts(b, c, j);
    assert ShapedAt(c, j) && c[j].op == CEE_SWITCH_ARG;
    TargetReadBack(c[j].arg.node, Off(c, p) + 5 + 4 * c[p].arg.value);
  }

  /** The arms from index `j` on are read back. */
  lemma {:induction false} ArmsReadBack(b: seq<byte>, c: Code, p: nat, j: nat)
    requires Encodable(c) && Holds(b, c)
    requires p < |c| && c[p].op == CEE_SWITCH && HasArms(c, p) && p < j <= p + 1 + c[p].arg.value
    ensures var n := c[p].arg.value; var base := Off(c, p) + 5 + 4 * n;
            && Off(c, j) <= |b|
            && ParseArms(b, Off(c, j), base % TWO_TO_THE_32, p + 1 + n - j) == Parsed(c[j..p + 1 + n], Off(c, p + 1 + n))
    decreases p + 1 + c[p].arg.value - j
  {
    hide Holds, LE, FromLE, Pow256, Signed, Off, Encodable;
    var n := c[p].arg.value;
    assert Shaped(c) by { EncodableShaped(c); }
    HoldsBounds(b, c, j);
    if j < p + 1 + n {
      ArmReadBack(b, c, p, j);
      ArmsReadBack(b, c, p, j + 1);
      assert c[j..p + 1 + n] == [c[j]] + c[j + 1..p + 1 + n];
    }
  }

  lemma EncodableShaped(c: Code)
    requires Encodable(c)
    ensures Shaped(c)
  {
  }

  lemma HoldsBounds(b: seq<byte>, c: Code, i: nat)
    requires Shaped(c) && Holds(b, c) && i <= |c|
    ensures Off(c, i) <= |b|
  {
    OffGrows(c, i, |c|);
  }

  /** The index behind an instruction and its arms. */
  function Behind(c: Code, i: nat): (k: nat)
    requires i < |c| && ShapedAt(c, i)
    ensures i < k <= |c|
  {
    if c[i].op == CEE_SWITCH then i + 1 + c[i].arg.value else i + 1
  }

  lemma BranchSize(op: int)
    requires HasTarget(op)
    ensures OperandSize(op) == if IsShortBranch(op) then 1 else 4
  {
  }

  lemma BehindStarts(c: Code, i: nat)
    requires Shaped(c) && i < |c| && ShapedAt(c, i) && Starts(c, i)
    ensures Starts(c, Behind(c, i))
  {
    var k := Behind(c, i);
    if k < |c| { assert ShapedAt(c, k); }
  }

  lemma SwitchParsed(b: seq<byte>, c: Code, i: nat)
    requires Encodable(c) && Holds(b, c) && i < |c| && c[i].op == CEE_SWITCH && ShapedAt(c, i)
    ensures var o' := Off(c, i) + 1;
            o' <= |b| && ParseOperand(b, o', CEE_SWITCH) == Parsed(c[i..Behind(c, i)], Off(c, Behind(c, i)))
  {
    hide Holds, LE, FromLE, Pow256, ParseArms, Off;
    ChunkParts(b, c, i);
    var n := c[i].arg.value;
    var o' := Off(c, i) + 1;
    ArmsBase(c, i, i + 1);
    ArmsReadBack(b, c, i, i + 1);
    HoldsBounds(b, c, Behind(c, i));
    HoldsBounds(b, c, i + 1);
    ArmsBase(c, i, Behind(c, i));
    Powers();
    FromToLE(n, 4);
    HoldsSize(b, c);
    assert n < TWO_TO_THE_32;
    ModUnique(n, TWO_TO_THE_32, 0, n);
    assert FromLE(b[o'..o' + 4]) == n;
    assert c[i..Behind(c, i)] == [c[i]] + c[i + 1..Behind(c, i)];
  }

  lemma OperandParsed(b: seq<byte>, c: Code, i: nat)
    requires Encodable(c) && Holds(b, c) && i < |c| && Starts(c, i) && ShapedAt(c, i)
    ensures var o' := Off(c, i) + OpcodeSize(c[i].op);
            o' <= |b| && ParseOperand(b, o', c[i].op) == Parsed(c[i..Behind(c, i)], Off(c, Behind(c, i)))
  {
    hide Holds, LE, FromLE, Pow256, ParseArms, Chunk, Off, IsEncodable;
    var op := c[i].op;
    ChunkParts(b, c, i);
    if op == CEE_SWITCH {
      SwitchParsed(b, c, i);
    } else {
      hide OperandSize, OpcodeSize;
      var k := OperandSize(op);
      var o' := Off(c, i) + OpcodeSize(op);
      assert c[i..Behind(c, i)] == [c[i]];
      if !HasTarget(op) {
        assert CanonicalAt(c[i]);
        OperandReadBack(c[i].arg.value, k);
      } else if IsShortBranch(op) {
        assert Reaches(c, i);
        BranchSize(op);
        OperandReadBack(OperandValue(c, i), 1);
        assert c[i].arg.node < TWO_TO_THE_32;
        ModUnique(c[i].arg.node, TWO_TO_THE_32, 0, c[i].arg.node);
      } else {
        BranchSize(op);
        TargetReadBack(c[i].arg.node, Off(c, i + 1));
      }
    }
  }

  lemma InstrParsed(b: seq<byte>, c: Code, i: nat)
    requires Encodable(c) && Holds(b, c) && i < |c| && Starts(c, i) && ShapedAt(c, i)
    ensures Off(c, i) < |b| && ParseInstr(b, Off(c, i)) == Parsed(c[i..Behind(c, i)], Off(c, Behind(c, i)))
  {
    hide Holds, ParseOperand, Encodable, OperandSize, Chunk, Off;
    EncodableShaped(c);
    var op, o := c[i].op, Off(c, i);
    OperandParsed(b, c, i);
    ChunkParts(b, c, i);
    if op >= 0x100 {
      assert b[o] == b[o..o + 2][0] && b[o + 1] == b[o..o + 2][1];
    } else {
      assert b[o] == b[o..o + 1][0];
    }
  }

  lemma {:induction false} CodeParsed(b: seq<byte>, c: Code, i: nat)
    requires Encodable(c) && Holds(b, c) && i <= |c| && Starts(c, i)
    ensures Off(c, i) <= |b| && ParseFrom(b, Off(c, i)) == Decoded(c[i..])
    decreases |c| - i
  {
    hide Holds, ParseInstr;
    HoldsBounds(b, c, i);
    if i < |c| {
      assert ShapedAt(c, i);
      InstrParsed(b, c, i);
      var k := Behind(c, i);
      BehindStarts(c, i);
      CodeParsed(b, c, k);
      assert c[i..] == c[i..k] + c[k..];
    } else {
      assert |b| == Off(c, i) by { assert |b| == CodeSize(c) by { HoldsSize(b, c); } }
    }
  }

  lemma HoldsSize(b: seq<byte>, c: Code)
    requires Shaped(c) && Holds(b, c)
    ensures |b| == CodeSize(c)
  {
  }

  lemma {:induction false} IndexFound(c: Code, k: nat, i: nat)
    requires Shaped(c) && k <= i <= |c| && Starts(c, k)
    ensures IndexOf(c, Off(c, k), i) == k
  {
    if k < i {
      OffGrowsStrictly(c, k, i);
      IndexFound(c, k, i - 1);
    }
  }

  lemma PlacedResolved(c: Code)
    requires Shaped(c) && Targeted(c)
    ensures Resolvable(Placed(c)) && Resolved(Placed(c)) == c
  {
    var r := Placed(c);
    PlacedShape(c);
    forall i | 0 <= i < |c| && c[i].arg.Target?
      ensures IndexOf(r, r[i].arg.node, |c|) == c[i].arg.node
    {
      IndexFound(r, c[i].arg.node, |c|);
    }
  }

  /** Code that the exporter can write as it stands. */
  predicate Exportable(c: Code) {
    Shaped(c) && Targeted(c) && CodeSize(c) < TWO_TO_THE_31 && (forall i :: 0 <= i < |c| ==> Reaches(Placed(c), i))
  }

  lemma PlacedEncodable(c: Code)
    requires Exportable(c) && Canonical(c)
    ensures Encodable(Placed(c)) && Holds(Encode(c), Placed(c)) && |Encode(c)| == CodeSize(c)
  {
    hide Holds, InSigned;
    PlacedShape(c);
    var r := Placed(c);
    forall i | 0 <= i < |r| ensures CanonicalAt(r[i]) { assert CanonicalAt(c[i]); }
    forall i | 0 <= i < |r| && r[i].arg.Target? ensures r[i].arg.node < TWO_TO_THE_32 {
      OffGrows(c, c[i].arg.node, |c|);
    }
    EncodingHolds(r, 0, []);
    assert [] + EncodeFrom(r, 0) == EncodeFrom(r, 0);
    HoldsSize(Encode(c), r);
  }

  lemma DecodeCanonical(c: Code)
    requires Exportable(c) && Canonical(c)
    ensures Decode(Encode(c)) == Decoded(c)
  {
    hide Encode, Holds, Encodable, Resolvable, Resolved, Canonical;
    PlacedEncodable(c);
    if |c| > 0 { assert ShapedAt(c, 0); }
    CodeParsed(Encode(c), Placed(c), 0);
    assert Placed(c)[0..] == Placed(c);
    PlacedResolved(c);
  }

  lemma NormalOperandFits(x: Instr<nat>)
    ensures CanonicalAt(Instr(x.op, NormalOperand(x)))
    ensures CanonicalAt(x) ==> NormalOperand(x) == x.arg
    ensures x.arg.Bits? && x.op != CEE_SWITCH ==>
              NormalOperand(x).Bits? && LE(NormalOperand(x).value, OperandSize(x.op)) == LE(x.arg.value, OperandSize(x.op))
  {
    hide LE, FromLE, Pow256, OperandSize;
    if x.arg.Bits? && x.op != CEE_SWITCH {
      var k, v := OperandSize(x.op), x.arg.value;
      FromToLE(v, k);
      SignedBytes(LE(v, k));
      if InSigned(v, k) { SignedRoundTrip(v, k); }
    }
  }

  lemma NormalShape(c: Code)
    requires Targeted(c)
    ensures Targeted(Normal(c)) && (Shaped(c) <==> Shaped(Normal(c))) && Canonical(Normal(c))
    ensures forall i :: 0 <= i <= |c| ==> Off(Normal(c), i) == Off(c, i)
  {
    hide InSigned, IsEncodable, OperandSize, HasTarget, Signed;
    var d := Normal(c);
    forall i | 0 <= i < |c| ensures ShapedAt(c, i) <==> ShapedAt(d, i) { }
    forall i | 0 <= i < |c| ensures CanonicalAt(d[i]) { NormalOperandFits(c[i]); }
    forall i | 0 <= i <= |c| ensures Off(d, i) == Off(c, i) { SameSizes(d, c, i); }
  }

  lemma NormalSwitch(c: Code, i: nat)
    requires Targeted(c) && Targeted(Normal(c)) && i < |c|
    ensures var x, y := Placed(Normal(c))[i], Placed(c)[i];
            x.op == y.op && (x.op == CEE_SWITCH ==> x.arg.Bits? == y.arg.Bits? && (x.arg.Bits? ==> x == y))
  {
    hide Signed, OperandSize, Off;
  }

  lemma {:induction false} NormalBase(c: Code, i: nat)
    requires Targeted(c) && i <= |c|
    ensures Targeted(Normal(c)) && SwitchBase(Placed(Normal(c)), i) == SwitchBase(Placed(c), i)
  {
    hide Signed, OperandSize, Shaped, Off, Targeted, NormalOperand, Normal, Placed;
    NormalShape(c);
    PlacedShape(c);
    PlacedShape(Normal(c));
    if i > 0 {
      NormalBase(c, i - 1);
      NormalSwitch(c, i - 1);
    }
  }

  lemma NormalChunk(c: Code, i: nat)
    requires Shaped(c) && Targeted(c) && i < |c|
    ensures Targeted(Normal(c)) && ShapedAt(Placed(c), i) && ShapedAt(Placed(Normal(c)), i)
    ensures Chunk(Placed(Normal(c)), i) == Chunk(Placed(c), i)
    ensures Reaches(Placed(c), i) ==> Reaches(Placed(Normal(c)), i)
  {
    hide LE, Signed, OperandSize, InSigned, OpcodeBytes;
    NormalShape(c);
    PlacedShape(c);
    PlacedShape(Normal(c));
    NormalBase(c, i);
    NormalOperandFits(c[i]);
    assert ShapedAt(Placed(c), i) && ShapedAt(Placed(Normal(c)), i);
  }

  lemma {:induction false} NormalEncoding(c: Code, i: nat)
    requires Shaped(c) && Targeted(c) && i <= |c|
    ensures Targeted(Normal(c)) && Shaped(Placed(c)) && Shaped(Placed(Normal(c)))
    ensures EncodeFrom(Placed(Normal(c)), i) == EncodeFrom(Placed(c), i)
    decreases |c| - i
  {
    hide Chunk, ShapedAt;
    NormalShape(c);
    PlacedShape(c);
    PlacedShape(Normal(c));
    if i < |c| {
      NormalChunk(c, i);
      NormalEncoding(c, i + 1);
    }
  }

  /** Importing the code bytes that were exported gives back the exported instruction list. */
  lemma DecodeEncode(c: Code)
    requires Exportable(c)
    ensures Decode(Encode(c)) == Decoded(Normal(c))
    ensures Canonical(c) ==> Normal(c) == c
  {
    hide Decode, NormalOperand, CanonicalAt, Reaches;
    NormalShape(c);
    NormalEncoding(c, 0);
    forall i | 0 <= i < |c| ensures Reaches(Placed(Normal(c)), i) { NormalChunk(c, i); }
    DecodeCanonical(Normal(c));
    forall i | 0 <= i < |c| ensures Canonical(c) ==> Normal(c)[i] == c[i] { NormalOperandFits(c[i]); }
  }

  // What the decoder reads, the encoder writes

  lemma Displaced(x: seq<byte>, base: nat)
    requires |x| == 1 || |x| == 4
    ensures LE((base + Signed(FromLE(x), |x|)) % TWO_TO_THE_32 - base, |x|) == x
    ensures LE((base % TWO_TO_THE_32 + Signed(FromLE(x), |x|)) % TWO_TO_THE_32 - base, |x|) == x
  {
    hide LE, FromLE, Pow256;
    Powers();
    SignedBytes(x);
    var v := Signed(FromLE(x), |x|);
    DisplacedBy(v, base, base + v, |x|);
    DisplacedBy(v, base, base % TWO_TO_THE_32 + v, |x|);
  }

  lemma DisplacedBy(v: int, base: nat, sum: int, k: nat)
    requires (k == 1 || k == 4) && (sum == base + v || sum == base % TWO_TO_THE_32 + v)
    ensures LE(sum % TWO_TO_THE_32 - base, k) == LE(v, k)
  {
    hide LE, FromLE, Pow256;
    Powers();
    var q := -(sum / TWO_TO_THE_32) - (if sum == base + v then 0 else base / TWO_TO_THE_32);
    assert sum % TWO_TO_THE_32 - base == v + TWO_TO_THE_32 * q;
    var m := if k == 1 then 0x100_0000 else 1;
    assert TWO_TO_THE_32 * q == Pow256(k) * (m * q);
    Congruent(v, Pow256(k), m * q);
    SameResidue(v + TWO_TO_THE_32 * q, v, k);
  }

  lemma {:induction false} ArmsParsed(b: seq<byte>, o: nat, base: int, n: nat)
    requires o <= |b| && ParseArms(b, o, base, n).Parsed?
    ensures var p := ParseArms(b, o, base, n);
            && |p.code| == n && p.next == o + 4 * n
            && forall j :: 0 <= j < n ==>
                 p.code[j] == Instr(CEE_SWITCH_ARG, Target((base + Signed(FromLE(b[o + 4 * j..o + 4 * j + 4]), 4)) % TWO_TO_THE_32))
    decreases n
  {
    hide Signed, FromLE;
    if n > 0 {
      ArmsParsed(b, o + 4, base, n - 1);
      var rest := ParseArms(b, o + 4, base, n - 1);
      var p := ParseArms(b, o, base, n);
      forall j | 0 <= j < n
        ensures p.code[j] == Instr(CEE_SWITCH_ARG, Target((base + Signed(FromLE(b[o + 4 * j..o + 4 * j + 4]), 4)) % TWO_TO_THE_32))
      {
        if j > 0 {
          var i := j - 1;
          assert p.code[j] == rest.code[i];
          assert o + 4 + 4 * i == o + 4 * j;
        }
      }
    }
  }

  /** The parsed code `p` stands in `c` at index `i`. */
  predicate StandsAt(c: Code, i: nat, p: Code) {
    i + |p| <= |c| && forall j :: 0 <= j < |p| ==> c[i + j] == p[j]
  }

  /** What one decoded instruction satisfies. */
  predicate Read(b: seq<byte>, c: Code, i: nat)
    requires i < |c|
  {
    && ShapedAt(c, i) && HoldsAt(b, c, i) && CanonicalAt(c[i])
    && (c[i].arg.Target? ==> c[i].arg.node < TWO_TO_THE_32)
    && (c[i].arg.Target? && c[i].arg.node < TWO_TO_THE_31 && Off(c, i + 1) < TWO_TO_THE_31 ==> Reaches(c, i))
  }

  lemma HoldsPart(b: seq<byte>, c: Code, i: nat)
    requires i < |c| && ShapedAt(c, i) && Off(c, i) + Size(c[i].op) <= |b|
    requires var o := Off(c, i); var o' := o + OpcodeSize(c[i].op);
             b[o..o'] == OpcodeBytes(c[i].op) && b[o'..o' + OperandSize(c[i].op)] == LE(OperandValue(c, i), OperandSize(c[i].op))
    ensures HoldsAt(b, c, i)
  {
    hide OpcodeBytes, OpcodeSize, OperandSize, OperandValue, LE, ShapedAt;
    var o, o' := Off(c, i), Off(c, i) + OpcodeSize(c[i].op);
    assert Off(c, i + 1) == o' + OperandSize(c[i].op);
    assert b[o..Off(c, i + 1)] == b[o..o'] + b[o'..Off(c, i + 1)];
  }

  lemma NoWrap(v: int, base: nat, k: nat)
    requires (k == 1 || k == 4) && InSigned(v, k)
    ensures (base + v) % TWO_TO_THE_32 < TWO_TO_THE_32
    ensures k == 1 && base < TWO_TO_THE_31 && (base + v) % TWO_TO_THE_32 < TWO_TO_THE_31 ==> (base + v) % TWO_TO_THE_32 - base == v
  {
    Powers();
  }

  lemma PlainOperand(b: seq<byte>, c: Code, i: nat, o': nat)
    requires i < |c| && IsEncodable(c[i].op) && c[i].op != CEE_SWITCH && c[i].op != CEE_SWITCH_ARG
    requires o' == Off(c, i) + OpcodeSize(c[i].op) && o' <= |b| && b[Off(c, i)..o'] == OpcodeBytes(c[i].op)
    requires ParseOperand(b, o', c[i].op).Parsed? && ParseOperand(b, o', c[i].op).code == [c[i]]
    ensures Read(b, c, i) && ParseOperand(b, o', c[i].op).next == Off(c, i + 1)
  {
    hide LE, FromLE, Pow256, OpcodeSize, OpcodeBytes, InSigned, IsEncodable, HasTarget, OperandSize, Signed;
    var op := c[i].op;
    var k := OperandSize(op);
    assert Off(c, i + 1) == o' + k;
    var x := b[o'..o' + k];
    SignedBytes(x);
    assert ShapedAt(c, i);
    if HasTarget(op) {
      BranchSize(op);
      Displaced(x, Off(c, i + 1));
      NoWrap(Signed(FromLE(x), k), Off(c, i + 1), k);
    }
    HoldsPart(b, c, i);
  }

  lemma SwitchOperand(b: seq<byte>, c: Code, i: nat, o': nat)
    requires i < |c| && c[i].op == CEE_SWITCH
    requires o' == Off(c, i) + 1 && o' <= |b| && b[Off(c, i)..o'] == OpcodeBytes(CEE_SWITCH)
    requires ParseOperand(b, o', CEE_SWITCH).Parsed?
    requires var p := ParseOperand(b, o', CEE_SWITCH); StandsAt(c, i, p.code) && Starts(c, i + |p.code|)
    ensures var p := ParseOperand(b, o', CEE_SWITCH);
            && p.next == Off(c, i + |p.code|)
            && forall j :: i <= j < i + |p.code| ==> Read(b, c, j)
  {
    hide LE, FromLE, Pow256, Signed, OpcodeBytes, InSigned, ParseArms, Off, ShapedAt, HasArms, HoldsAt, OperandValue, Size;
    var p := ParseOperand(b, o', CEE_SWITCH);
    var n := FromLE(b[o'..o' + 4]);
    var base := o' + 4 + 4 * n;
    ArmsParsed(b, o' + 4, base % TWO_TO_THE_32, n);
    var arms := ParseArms(b, o' + 4, base % TWO_TO_THE_32, n).code;
    assert c[i] == p.code[0];
    forall j | i < j < i + 1 + n ensures c[j] == arms[j - i - 1] {
      var k := j - i;
      assert c[i + k] == p.code[k];
    }
    SwitchRead(b, c, i, n);
    ArmOffsets(c, i, i + 1 + n);
    forall j | i < j < i + 1 + n ensures Read(b, c, j) {
      ArmRead(b, c, i, n, j);
    }
  }

  lemma {:induction false} ArmOffsets(c: Code, p: nat, j: nat)
    requires p < j <= |c| && c[p].op == CEE_SWITCH && c[p].arg.Bits?
    requires forall k :: p < k < j ==> c[k].op == CEE_SWITCH_ARG
    ensures SwitchBase(c, j) == Off(c, p) + 5 + 4 * c[p].arg.value
    ensures Off(c, j) == Off(c, p) + 5 + 4 * (j - p - 1)
  {
    if j > p + 1 { ArmOffsets(c, p, j - 1); }
  }

  lemma SwitchRead(b: seq<byte>, c: Code, i: nat, n: nat)
    requires i + 1 + n <= |c| && c[i] == Instr(CEE_SWITCH, Bits(n)) && Starts(c, i + 1 + n)
    requires forall j :: i < j < i + 1 + n ==> c[j].op == CEE_SWITCH_ARG
    requires Off(c, i) + 5 <= |b| && b[Off(c, i)..Off(c, i) + 1] == OpcodeBytes(CEE_SWITCH)
    requires n == FromLE(b[Off(c, i) + 1..Off(c, i) + 5])
    ensures Read(b, c, i)
  {
    hide LE, FromLE, Pow256, InSigned, Off;
    assert HasArms(c, i);
    ToFromLE(b[Off(c, i) + 1..Off(c, i) + 5]);
    HoldsPart(b, c, i);
  }

  lemma ArmRead(b: seq<byte>, c: Code, i: nat, n: nat, j: nat)
    requires i < j < i + 1 + n <= |c| && c[i] == Instr(CEE_SWITCH, Bits(n))
    requires forall k :: i < k < i + 1 + n ==> c[k].op == CEE_SWITCH_ARG
    requires var o := Off(c, i) + 5 + 4 * (j - i - 1);
             && o + 4 <= |b|
             && c[j].arg == Target(((Off(c, i) + 5 + 4 * n) % TWO_TO_THE_32 + Signed(FromLE(b[o..o + 4]), 4)) % TWO_TO_THE_32)
    ensures Read(b, c, j)
  {
    hide LE, FromLE, Pow256, Signed, InSigned, Off;
    var o := Off(c, i) + 5 + 4 * (j - i - 1);
    ArmOffsets(c, i, j);
    Displaced(b[o..o + 4], Off(c, i) + 5 + 4 * n);
    assert ShapedAt(c, j);
    HoldsPart(b, c, j);
  }

  lemma InstrRead(b: seq<byte>, c: Code, i: nat)
    requires i < |c| && Off(c, i) < |b| && ParseInstr(b, Off(c, i)).Parsed?
    requires var p := ParseInstr(b, Off(c, i)); StandsAt(c, i, p.code) && Starts(c, i + |p.code|)
    ensures var p := ParseInstr(b, Off(c, i));
            && |p.code| > 0 && p.next == Off(c, i + |p.code|)
            && forall j :: i <= j < i + |p.code| ==> Read(b, c, j)
  {
    hide Off, Read, OperandSize, ParseArms, Signed, FromLE;
    var o := Off(c, i);
    var p := ParseInstr(b, o);
    var o' := if b[o] == CEE_PREFIX1 then o + 2 else o + 1;
    assert p.code != [] && c[i + 0] == p.code[0];
    var op := c[i].op;
    assert p == ParseOperand(b, o', op);
    assert b[o..o'] == OpcodeBytes(op);
    if op == CEE_SWITCH {
      SwitchOperand(b, c, i, o');
    } else {
      assert p.code == [c[i]];
      PlainOperand(b, c, i, o');
    }
  }

  lemma FirstStarts(b: seq<byte>, o: nat)
    requires o <= |b| && ParseFrom(b, o).Decoded?
    ensures Starts(ParseFrom(b, o).code, 0)
  {
    hide ParseArms, Signed, FromLE, OperandSize, HasTarget;
  }

  lemma {:induction false} CodeRead(b: seq<byte>, c: Code, i: nat)
    requires i <= |c| && Off(c, i) <= |b| && ParseFrom(b, Off(c, i)) == Decoded(c[i..])
    requires forall j :: 0 <= j < i ==> Read(b, c, j)
    ensures Off(c, |c|) == |b| && forall j :: 0 <= j < |c| ==> Read(b, c, j)
    decreases |c| - i
  {
    hide ParseInstr, Read, Off;
    if Off(c, i) == |b| {
      assert c[i..] == [];
    } else {
      var p := ParseInstr(b, Off(c, i));
      FirstStarts(b, p.next);
      var rest := ParseFrom(b, p.next).code;
      assert c[i..] == p.code + rest;
      forall j | 0 <= j < |p.code| ensures c[i + j] == p.code[j] { assert c[i..][j] == p.code[j]; }
      var k := i + |p.code|;
      assert c[k..] == rest by { assert c[k..] == c[i..][|p.code|..]; }
      if k < |c| { assert c[k] == rest[0]; }
      assert i < |c| by { InstrNonempty(b, Off(c, i)); }
      InstrRead(b, c, i);
      CodeRead(b, c, k);
    }
  }

  lemma InstrNonempty(b: seq<byte>, o: nat)
    requires o < |b| && ParseInstr(b, o).Parsed?
    ensures ParseInstr(b, o).code != []
  {
  }

  /** Everything the decoder accepts is the encoding of what it returns, and already fit to be exported: an unedited
      body is exported as the bytes it was imported from. */
  lemma EncodeDecode(b: seq<byte>)
    requires |b| < TWO_TO_THE_31 && Decode(b).Decoded?
    ensures Exportable(Decode(b).code) && Canonical(Decode(b).code) && Encode(Decode(b).code) == b
  {
    hide HoldsAt, Chunk, EncodeFrom, ParseFrom, InSigned, HasArms, IsEncodable, OperandSize;
    var r := ParseFrom(b, 0).code;
    var c := Decode(b).code;
    assert r[0..] == r;
    CodeRead(b, r, 0);
    ReadIsShaped(b, r);
    ResolvedPlaced(r);
    PlacedShape(c);
    assert Placed(c) == r;
    HoldsIsEncoding(b, r, 0);
    assert b[0..] == b;
    forall i | 0 <= i < |c| ensures CanonicalAt(c[i]) { assert Read(b, r, i); }
    forall i | 0 <= i < |r| ensures Reaches(r, i) {
      assert Read(b, r, i);
      if IsShortBranch(r[i].op) {
        assert ShapedAt(r, i);
        OffGrows(r, i + 1, |r|);
        OffGrows(c, c[i].arg.node, |c|);
      }
    }
  }

  lemma ReadIsShaped(b: seq<byte>, r: Code)
    requires Off(r, |r|) == |b| && forall j :: 0 <= j < |r| ==> Read(b, r, j)
    ensures Shaped(r) && Holds(b, r)
  {
    hide HoldsAt, ShapedAt;
    forall i | 0 <= i < |r| ensures ShapedAt(r, i) && HoldsAt(b, r, i) { assert Read(b, r, i); }
  }

  lemma ResolvedPlaced(r: Code)
    requires Shaped(r) && Resolvable(r)
    ensures Shaped(Resolved(r)) && Targeted(Resolved(r)) && Placed(Resolved(r)) == r
    ensures CodeSize(Resolved(r)) == CodeSize(r)
  {
    hide InSigned, IsEncodable, OperandSize, HasTarget;
    var c := Resolved(r);
    assert forall i :: 0 <= i < |c| ==> c[i].op == r[i].op;
    forall i | 0 <= i <= |c| ensures Off(c, i) == Off(r, i) { SameSizes(c, r, i); }
    assert Targeted(c);
    assert Placed(c) == r;
    PlacedShape(c);
  }
}
