/** Writing the instruction list back as code bytes. */
module Exporting {
  import opened Bytes
  import opened Opcodes
  import opened Listings
  import opened InstructionList
  import opened Codec
  import opened Relaxation
  import opened Importing

  /** The list holds the code `c`: a branch to index `k` holds the node at position `k`, or the sentinel. */
  ghost predicate Represents(pilr: ILRewriter, c: Code)
    reads pilr`nodes, pilr.nodes`opcode, pilr.nodes`arg
  {
    && |pilr.nodes| == |c|
    && (forall i {:trigger pilr.nodes[i]} :: 0 <= i < |c| ==> RepresentsAt(pilr, c, i, c[i].op))
  }

  ghost predicate RepresentsAt(pilr: ILRewriter, c: Code, i: nat, op: int)
    requires |pilr.nodes| == |c| && i < |c|
    reads pilr`nodes, pilr.nodes`opcode, pilr.nodes`arg
  {
    && pilr.nodes[i].opcode == op
    && match c[i].arg
       case Bits(v) => pilr.nodes[i].arg == Bits(v) || (pilr.nodes[i].arg.Target? && OperandSize(op) == 0 && v == 0)
       case Target(k) => k <= |c| && pilr.nodes[i].arg == Target(pilr.At(k + 1))
  }

  /** Every branch of a listing leads into it or to its end. */
  predicate Closed<N(==)>(l: Listing<N>)
    requires WellFormed(l)
  {
    forall n :: n in l.order && l.code[n].arg.Target? && OperandSize(l.code[n].op) > 0 ==>
      l.code[n].arg.node in l.order || l.code[n].arg.node == l.end
  }

  lemma ViewRepresents(pilr: ILRewriter)
    requires pilr.Linked() && Closed(pilr.View())
    ensures Represents(pilr, Indexed(pilr.View())) && |Indexed(pilr.View())| == |pilr.nodes|
  {
    hide OperandSize;
    var l := pilr.View();
    var c := Indexed(l);
    forall i | 0 <= i < |c| ensures RepresentsAt(pilr, c, i, c[i].op) {
      var n := pilr.nodes[i];
      if n.arg.Target? && OperandSize(n.opcode) > 0 {
        assert n in l.order;
        var k := Place(l, n.arg.node);
        assert pilr.At(k + 1) == n.arg.node;
      }
    }
  }

  lemma RepresentsView(pilr: ILRewriter, c: Code)
    requires pilr.Linked() && Represents(pilr, c) && Shaped(c)
    ensures WellFormed(pilr.View()) && Closed(pilr.View()) && Indexed(pilr.View()) == c
  {
    hide ILRewriter.At, OperandSize, HasArms, IsEncodable, HasTarget;
    var l := pilr.View();
    forall i | 0 <= i < |c| ensures Indexed(l)[i] == c[i] && (c[i].arg.Target? ==> pilr.nodes[i].arg.node == pilr.At(c[i].arg.node + 1)) {
      assert RepresentsAt(pilr, c, i, c[i].op) && ShapedAt(c, i);
      if c[i].arg.Target? {
        PlaceAt(pilr, c[i].arg.node);
        BranchSize(c[i].op);
      }
    }
    forall n | n in l.order && l.code[n].arg.Target? && OperandSize(l.code[n].op) > 0
      ensures l.code[n].arg.node in l.order || l.code[n].arg.node == l.end
    {
      var i := Pos(l.order, n);
      assert pilr.nodes[i] == n && RepresentsAt(pilr, c, i, c[i].op);
      InRing(pilr, c[i].arg.node + 1);
    }
  }

  lemma InRing(pilr: ILRewriter, i: nat)
    requires i <= |pilr.nodes| + 1
    ensures pilr.At(i) in pilr.nodes || pilr.At(i) == pilr.head
  {
  }

  // Bytes in the buffer

  method WriteLE(buffer: array<byte>, at: nat, v: int, k: nat)
    requires at + k <= buffer.Length
    modifies buffer
    ensures buffer[..] == Patched(old(buffer[..]), at, LE(v, k))
    decreases k
  {
    if k > 0 {
      buffer[at] := v % 256;
      WriteLE(buffer, at + 1, v / 256, k - 1);
    }
  }

  function Patched(b: seq<byte>, at: nat, x: seq<byte>): (b': seq<byte>)
    requires at + |x| <= |b|
    ensures |b'| == |b| && b'[at..at + |x|] == x
    ensures forall i, j :: 0 <= i <= j <= |b| && (j <= at || at + |x| <= i) ==> b'[i..j] == b[i..j]
  {
    b[..at] + x + b[at + |x|..]
  }

  /** The opcode of instruction `i` is in the buffer, and so is its operand unless it is a target still to be patched. */
  predicate Written(b: seq<byte>, r: Code, i: nat, patched: bool)
    requires i < |r| && ShapedAt(r, i)
  {
    var o := Off(r, i); var o' := o + OpcodeSize(r[i].op);
    && o' + OperandSize(r[i].op) == Off(r, i + 1) <= |b|
    && b[o..o'] == OpcodeBytes(r[i].op)
    && (patched || !HasTarget(r[i].op) ==> b[o'..Off(r, i + 1)] == LE(OperandValue(r, i), OperandSize(r[i].op)))
  }

  lemma StaysWritten(b: seq<byte>, b': seq<byte>, r: Code, i: nat, patched: bool)
    requires i < |r| && ShapedAt(r, i) && Written(b, r, i, patched)
    requires |b'| == |b| && b'[Off(r, i)..Off(r, i + 1)] == b[Off(r, i)..Off(r, i + 1)]
    ensures Written(b', r, i, patched)
  {
    hide OpcodeBytes, OpcodeSize, OperandSize, OperandValue, LE, ShapedAt;
    var o, o', e := Off(r, i), Off(r, i) + OpcodeSize(r[i].op), Off(r, i + 1);
    SubSlices(b, o, o', e);
    SubSlices(b', o, o', e);
  }

  lemma SubSlices(b: seq<byte>, o: nat, o': nat, e: nat)
    requires o <= o' <= e <= |b|
    ensures b[o..o'] == b[o..e][..o' - o] && b[o'..e] == b[o..e][o' - o..]
  {
  }

  lemma WithinPrefix(b: seq<byte>, i: nat, j: nat, n: nat)
    requires i <= j <= n <= |b|
    ensures b[i..j] == b[..n][i..j]
  {
  }

  // First pass: offsets, opcodes and plain operands

  /** The instructions in front of `n` know their offsets. */
  ghost predicate Laid(pilr: ILRewriter, c: Code, n: nat)
    reads pilr`nodes, pilr.nodes`offset
  {
    && |pilr.nodes| == |c| && n <= |c|
    && (forall i {:trigger pilr.nodes[i]} :: 0 <= i < n ==> pilr.nodes[i].offset == Off(c, i))
  }

  /** The first `n` instructions of the placed code `r` have been written. */
  ghost predicate Emitted(b: seq<byte>, r: Code, n: nat) {
    n <= |r| && Shaped(r) && forall i :: 0 <= i < n ==> ShapedAt(r, i) && Written(b, r, i, false)
  }

  lemma EmittedLonger(b: seq<byte>, b': seq<byte>, r: Code, n: nat)
    requires Emitted(b, r, n) && n < |r| && Off(r, n) <= |b| == |b'|
    requires b'[..Off(r, n)] == b[..Off(r, n)] && Written(b', r, n, false)
    ensures Emitted(b', r, n + 1)
  {
    hide Written, ShapedAt;
    forall i | 0 <= i < n + 1 ensures ShapedAt(r, i) && Written(b', r, i, false) {
      assert ShapedAt(r, i);
      if i < n {
        assert Written(b, r, i, false);
        OffGrows(r, i, i + 1);
        OffGrows(r, i + 1, n);
        WithinPrefix(b', Off(r, i), Off(r, i + 1), Off(r, n));
        WithinPrefix(b, Off(r, i), Off(r, i + 1), Off(r, n));
        StaysWritten(b, b', r, i, false);
      }
    }
  }

  /** Writes the instruction at position `i` without its target. */
  method EmitInstr(instr: ILInstr, buffer: array<byte>, start: nat, ghost r: Code, ghost i: nat) returns (offset: nat)
    requires i < |r| && Shaped(r) && ShapedAt(r, i) && start == Off(r, i) && Off(r, i + 1) <= buffer.Length
    requires instr.opcode == r[i].op && (r[i].arg.Bits? && OperandSize(r[i].op) > 0 ==> instr.arg == Bits(r[i].arg.value))
    modifies instr`offset, buffer
    ensures offset == Off(r, i + 1) && instr.offset == start
    ensures buffer[..start] == old(buffer[..start]) && Written(buffer[..], r, i, false)
  {
    hide OperandSize, LE, InSigned, HasArms, HasTarget;
    instr.offset := start;
    offset := start;
    var opcode := instr.opcode;
    if opcode < CEE_COUNT {
      if opcode >= 0x100 {
        buffer[offset] := CEE_PREFIX1;
        offset := offset + 1;
      }
      buffer[offset] := opcode % 0x100;
      offset := offset + 1;
    }
    assert offset == start + OpcodeSize(opcode) && buffer[start..offset] == OpcodeBytes(opcode);
    if !HasTarget(opcode) && OperandSize(opcode) > 0 {
      ghost var b := buffer[..];
      WriteLE(buffer, offset, instr.arg.value, OperandSize(opcode));
      assert buffer[start..offset] == b[start..offset];
      assert buffer[..start] == b[..start];
    }
    offset := offset + OperandSize(opcode);
  }

  lemma PlacedFacts(c: Code)
    requires Shaped(c) && Targeted(c)
    ensures Shaped(Placed(c)) && |Placed(c)| == |c|
    ensures forall i :: 0 <= i < |c| ==> Placed(c)[i].op == c[i].op && (Placed(c)[i].arg.Bits? ==> Placed(c)[i] == c[i])
    ensures forall i :: 0 <= i <= |c| ==> Off(Placed(c), i) == Off(c, i)
  {
    PlacedShape(c);
  }

  /** The first pass: every instruction gets its offset, and everything but the branch targets is written. */
  method EmitPass(pilr: ILRewriter, buffer: array<byte>, ghost c: Code) returns (size: nat, fBranch: bool)
    requires pilr.Valid() && Represents(pilr, c) && Shaped(c) && Targeted(c) && buffer.Length == 10 * |c|
    modifies pilr.head`offset, (set n | n in pilr.nodes)`offset, buffer
    ensures size == CodeSize(c) == pilr.head.offset && Laid(pilr, c, |c|)
    ensures Emitted(buffer[..], Placed(c), |c|)
    ensures fBranch <==> exists i :: 0 <= i < |c| && HasTarget(c[i].op)
  {
    hide ILRewriter.Linked, ILRewriter.At, Shaped, Targeted, Emitted, Written, HasTarget, Placed, Off;
    ghost var r := Placed(c);
    PlacedFacts(c);
    var offset := 0;
    fBranch := false;
    var instr := pilr.head.next;
    ghost var i := 0;
    FirstNode(pilr);
    Standing(pilr, 0);
    EmittedNone(buffer[..], r);
    SizeBound(c, 0);
    while instr != pilr.head
      invariant 0 <= i <= |c| && instr == pilr.At(i + 1) && offset == Off(c, i)
      invariant instr == pilr.head ==> i == |c|
      invariant Laid(pilr, c, i) && Emitted(buffer[..], r, i)
      invariant fBranch <==> exists j :: 0 <= j < i && HasTarget(c[j].op)
      decreases |c| - i
    {
      Standing(pilr, i);
      SizeBound(c, i);
      SizeBound(c, i + 1);
      assert RepresentsAt(pilr, c, i, c[i].op);
      ghost var b := buffer[..];
      ShapedHere(r, i);
      Others(pilr, i);
      if HasTarget(instr.opcode) {
        fBranch := true;
      }
      offset := EmitInstr(instr, buffer, offset, r, i);
      EmittedLonger(b, buffer[..], r, i);
      instr := instr.next;
      i := i + 1;
      Standing(pilr, i);
    }
    HeadOutside(pilr);
    pilr.head.offset := offset;
    size := offset;
  }

  lemma Others(pilr: ILRewriter, i: nat)
    requires pilr.Linked() && i < |pilr.nodes|
    ensures forall j {:trigger pilr.nodes[j]} :: 0 <= j < |pilr.nodes| && j != i ==> pilr.nodes[j] != pilr.nodes[i]
  {
  }

  lemma HeadOutside(pilr: ILRewriter)
    requires pilr.Linked()
    ensures forall j {:trigger pilr.nodes[j]} :: 0 <= j < |pilr.nodes| ==> pilr.nodes[j] != pilr.head
  {
  }

  lemma EmittedNone(b: seq<byte>, r: Code)
    requires Shaped(r)
    ensures Emitted(b, r, 0)
  {
  }

  lemma ShapedHere(c: Code, i: nat)
    requires Shaped(c) && i < |c|
    ensures ShapedAt(c, i)
  {
  }

  // Second pass: branch targets

  /** Of the branches in front of `n` those that do not reach their target have become long. */
  ghost predicate PartlyWidened(pilr: ILRewriter, c: Code, n: nat)
    requires Targeted(c)
    reads pilr`nodes, pilr.nodes`opcode, pilr.nodes`arg
  {
    && |pilr.nodes| == |c|
    && (forall i {:trigger pilr.nodes[i]} :: 0 <= i < |c| ==>
          RepresentsAt(pilr, c, i, if i < n && TooFar(c, i) then Widen(c[i].op) else c[i].op))
  }

  /** Of the branches in front of `n` those that reach their target are complete. */
  ghost predicate PartlyPatched(b: seq<byte>, c: Code, n: nat)
    requires Targeted(c)
  {
    && Shaped(Placed(c))
    && forall i :: 0 <= i < |c| ==> ShapedAt(Placed(c), i) && Written(b, Placed(c), i, i < n && !TooFar(c, i))
  }

  /** The target of the branch at `i` goes into the last bytes of the instruction. */
  lemma TargetPatched(b: seq<byte>, c: Code, i: nat)
    requires Targeted(c) && PartlyPatched(b, c, i) && i < |c| && !TooFar(c, i) && HasTarget(c[i].op)
    requires Off(c, i + 1) <= |b| && OperandSize(c[i].op) <= Off(c, i + 1)
    ensures var k := OperandSize(c[i].op);
            PartlyPatched(Patched(b, Off(c, i + 1) - k, LE(OperandValue(Placed(c), i), k)), c, i + 1)
  {
    hide Written, ShapedAt, LE, Patched, TooFar, OperandSize, OpcodeSize, HasTarget, Placed, Off, Targeted;
    var r := Placed(c);
    var k := OperandSize(c[i].op);
    assert ShapedAt(r, i) && Written(b, r, i, false);
    PlacedShape(c);
    PlacedOps(c);
    var b' := Patched(b, Off(c, i + 1) - k, LE(OperandValue(r, i), k));
    forall j | 0 <= j < |c| ensures ShapedAt(r, j) && Written(b', r, j, j < i + 1 && !TooFar(c, j)) {
      assert ShapedAt(r, j) && Written(b, r, j, j < i && !TooFar(c, j));
      if j == i {
        PatchedHere(b, r, i);
      } else {
        WrittenBounds(b, r, i);
        WrittenBounds(b, r, j);
        if j < i { OffGrows(r, j + 1, i); } else { OffGrows(r, i + 1, j); }
        StaysWritten(b, b', r, j, j < i && !TooFar(c, j));
      }
    }
  }

  lemma PlacedOps(c: Code)
    requires Targeted(c)
    ensures forall i :: 0 <= i < |c| ==> Placed(c)[i].op == c[i].op
  {
  }

  lemma WrittenBounds(b: seq<byte>, r: Code, i: nat)
    requires i < |r| && ShapedAt(r, i) && exists patched: bool :: Written(b, r, i, patched)
    ensures Off(r, i) + OpcodeSize(r[i].op) + OperandSize(r[i].op) == Off(r, i + 1) <= |b|
  {
  }

  lemma PatchedHere(b: seq<byte>, r: Code, i: nat)
    requires i < |r| && ShapedAt(r, i) && Written(b, r, i, false)
    ensures var k := OperandSize(r[i].op);
            && k <= Off(r, i + 1) <= |b|
            && Written(Patched(b, Off(r, i + 1) - k, LE(OperandValue(r, i), k)), r, i, true)
  {
    hide OperandSize, OpcodeSize, LE, OperandValue, ShapedAt, HasTarget;
  }

  /** A branch that is left open, or needs no patching. */
  lemma NothingPatched(b: seq<byte>, c: Code, i: nat)
    requires Targeted(c) && PartlyPatched(b, c, i) && i < |c| && (TooFar(c, i) || !HasTarget(c[i].op))
    ensures PartlyPatched(b, c, i + 1)
  {
    hide OperandSize, OpcodeSize, LE, OperandValue, ShapedAt, HasTarget, TooFar, OpcodeBytes, Placed;
    PlacedOps(c);
    forall j | 0 <= j < |c| ensures ShapedAt(Placed(c), j) && Written(b, Placed(c), j, j < i + 1 && !TooFar(c, j)) {
      assert ShapedAt(Placed(c), j) && Written(b, Placed(c), j, j < i && !TooFar(c, j));
    }
  }

  lemma OffsetOf(pilr: ILRewriter, c: Code, k: nat)
    requires Laid(pilr, c, |c|) && pilr.head.offset == CodeSize(c) && k <= |c|
    ensures pilr.At(k + 1).offset == Off(c, k)
  {
    if k < |c| { assert pilr.At(k + 1) == pilr.nodes[k]; }
  }

  /** The distance that a branch bridges is what its operand holds. */
  lemma DeltaIsOperand(c: Code, i: nat)
    requires Shaped(c) && Targeted(c) && i < |c| && HasTarget(c[i].op)
    ensures c[i].arg.Target? && ShapedAt(c, i)
    ensures c[i].op != CEE_SWITCH_ARG ==> OperandValue(Placed(c), i) == Delta(c, i)
    ensures c[i].op == CEE_SWITCH_ARG ==> OperandValue(Placed(c), i) == Off(c, c[i].arg.node) - SwitchBase(Placed(c), i)
    ensures OperandSize(c[i].op) == if IsShortBranch(c[i].op) then 1 else 4
    ensures Off(c, i + 1) == Off(c, i) + Size(c[i].op)
  {
    PlacedShape(c);
    assert ShapedAt(c, i);
  }

  /** Completes one branch, or makes it long if it does not reach. */
  method PatchBranch(pilr: ILRewriter, instr: ILInstr, buffer: array<byte>, ghost c: Code, ghost i: nat) returns (tooFar: bool)
    requires pilr.Linked() && Shaped(c) && Targeted(c) && PartlyWidened(pilr, c, i) && PartlyPatched(buffer[..], c, i)
    requires Laid(pilr, c, |c|) && pilr.head.offset == CodeSize(c) <= buffer.Length
    requires i < |c| && instr == pilr.nodes[i] && HasTarget(c[i].op) && c[i].op != CEE_SWITCH_ARG
    modifies instr`opcode, buffer
    ensures PartlyWidened(pilr, c, i + 1) && PartlyPatched(buffer[..], c, i + 1)
    ensures tooFar <==> TooFar(c, i)
  {
    hide ILRewriter.At, Laid, PartlyPatched, Shaped, Targeted, ShapedAt, InSigned, Placed, OperandSize, HasTarget, Off, LE, Patched;
    DeltaIsOperand(c, i);
    NextIs(pilr, i);
    assert RepresentsAt(pilr, c, i, c[i].op);
    TargetBound(c, i);
    OffsetOf(pilr, c, c[i].arg.node);
    OffsetOf(pilr, c, i + 1);
    OffGrows(c, i + 1, |c|);
    var delta := instr.arg.node.offset - instr.next.offset;
    tooFar := IsShortBranch(instr.opcode) && !InSigned(delta, 1);
    if tooFar {
      NothingPatched(buffer[..], c, i);
      SetOpcode(pilr, instr, Widen(instr.opcode), c, i);
    } else {
      TargetPatched(buffer[..], c, i);
      var k := if IsShortBranch(instr.opcode) then 1 else 4;
      WriteLE(buffer, instr.next.offset - k, delta, k);
      NotWidened(pilr, c, i);
    }
  }

  method SetOpcode(pilr: ILRewriter, instr: ILInstr, op: int, ghost c: Code, ghost i: nat)
    requires pilr.Linked() && Targeted(c) && PartlyWidened(pilr, c, i)
    requires i < |c| && instr == pilr.nodes[i] && TooFar(c, i) && op == Widen(c[i].op)
    modifies instr`opcode
    ensures PartlyWidened(pilr, c, i + 1)
  {
    hide TooFar, Targeted, Widen, ILRewriter.At;
    Others(pilr, i);
    assert c[i].arg.Target? by { FarTarget(c, i); }
    instr.opcode := op;
    forall j | 0 <= j < |c| ensures RepresentsAt(pilr, c, j, if j < i + 1 && TooFar(c, j) then Widen(c[j].op) else c[j].op) {
      assert old(RepresentsAt(pilr, c, j, if j < i && TooFar(c, j) then Widen(c[j].op) else c[j].op));
    }
  }

  lemma FarTarget(c: Code, i: nat)
    requires Targeted(c) && i < |c| && TooFar(c, i)
    ensures c[i].arg.Target?
  {
  }

  lemma NotWidened(pilr: ILRewriter, c: Code, i: nat)
    requires Targeted(c) && PartlyWidened(pilr, c, i) && i < |c| && !TooFar(c, i)
    ensures PartlyWidened(pilr, c, i + 1)
  {
    hide TooFar, Targeted, Widen, RepresentsAt;
    forall j | 0 <= j < |c| ensures RepresentsAt(pilr, c, j, if j < i + 1 && TooFar(c, j) then Widen(c[j].op) else c[j].op) {
      assert pilr.nodes[j] in pilr.nodes;
    }
  }

  lemma NextIs(pilr: ILRewriter, i: nat)
    requires pilr.Linked() && i < |pilr.nodes|
    ensures pilr.nodes[i].next == pilr.At(i + 2)
  {
    Standing(pilr, i);
  }

  lemma TargetBound(c: Code, i: nat)
    requires Targeted(c) && i < |c| && c[i].arg.Target?
    ensures c[i].arg.node <= |c|
  {
  }

  /** Completes one arm of a `switch` whose jump table ends at `switchBase`. */
  method PatchArm(pilr: ILRewriter, instr: ILInstr, buffer: array<byte>, switchBase: int, ghost c: Code, ghost i: nat)
    requires pilr.Linked() && Shaped(c) && Targeted(c) && PartlyWidened(pilr, c, i) && PartlyPatched(buffer[..], c, i)
    requires Laid(pilr, c, |c|) && pilr.head.offset == CodeSize(c) <= buffer.Length
    requires i < |c| && instr == pilr.nodes[i] && c[i].op == CEE_SWITCH_ARG && switchBase == SwitchBase(Placed(c), i)
    modifies buffer
    ensures PartlyWidened(pilr, c, i + 1) && PartlyPatched(buffer[..], c, i + 1)
  {
    hide ILRewriter.At, PartlyPatched, Shaped, Targeted, ShapedAt, InSigned, Placed, Delta, Off, LE, Patched;
    DeltaIsOperand(c, i);
    assert RepresentsAt(pilr, c, i, c[i].op);
    TargetBound(c, i);
    OffsetOf(pilr, c, c[i].arg.node);
    OffGrows(c, i + 1, |c|);
    TargetPatched(buffer[..], c, i);
    WriteLE(buffer, instr.offset, instr.arg.node.offset - switchBase, 4);
    NotWidened(pilr, c, i);
  }

  /** The second pass over the list. */
  method ResolvePass(pilr: ILRewriter, buffer: array<byte>, ghost c: Code) returns (fTryAgain: bool)
    requires pilr.Valid() && Shaped(c) && Targeted(c) && Represents(pilr, c) && Emitted(buffer[..], Placed(c), |c|)
    requires Laid(pilr, c, |c|) && pilr.head.offset == CodeSize(c) <= buffer.Length
    modifies (set n | n in pilr.nodes)`opcode, buffer
    ensures PartlyWidened(pilr, c, |c|) && PartlyPatched(buffer[..], c, |c|)
    ensures fTryAgain <==> !Fits(c)
  {
    hide ILRewriter.Linked, ILRewriter.At, Represents, Laid, PartlyPatched, Shaped, Targeted, TooFar, Placed, Emitted;
    fTryAgain := false;
    var switchBase := 0;
    var instr := pilr.head.next;
    ghost var i := 0;
    FirstNode(pilr);
    Standing(pilr, 0);
    StartPatching(pilr, buffer[..], c);
    while instr != pilr.head
      invariant 0 <= i <= |c| && instr == pilr.At(i + 1) && |pilr.nodes| == |c|
      invariant instr == pilr.head ==> i == |c|
      invariant PartlyWidened(pilr, c, i) && PartlyPatched(buffer[..], c, i)
      invariant switchBase == SwitchBase(Placed(c), i)
      invariant fTryAgain <==> exists j :: 0 <= j < i && TooFar(c, j)
      decreases |c| - i
    {
      Standing(pilr, i);
      var far;
      far, switchBase := PatchInstr(pilr, instr, buffer, switchBase, c, i);
      fTryAgain := fTryAgain || far;
      instr := instr.next;
      i := i + 1;
      Standing(pilr, i);
    }
  }

  lemma StartPatching(pilr: ILRewriter, b: seq<byte>, c: Code)
    requires Shaped(c) && Targeted(c) && Represents(pilr, c) && Emitted(b, Placed(c), |c|)
    ensures PartlyWidened(pilr, c, 0) && PartlyPatched(b, c, 0)
  {
    hide RepresentsAt, ShapedAt, Written, Placed, TooFar;
    PlacedFacts(c);
    forall j | 0 <= j < |c| ensures RepresentsAt(pilr, c, j, c[j].op) {
      assert pilr.nodes[j] in pilr.nodes;
    }
  }

  /** What the second pass does with one instruction. */
  method PatchInstr(pilr: ILRewriter, instr: ILInstr, buffer: array<byte>, switchBase: int, ghost c: Code, ghost i: nat)
    returns (tooFar: bool, switchBase': int)
    requires pilr.Linked() && Shaped(c) && Targeted(c) && PartlyWidened(pilr, c, i) && PartlyPatched(buffer[..], c, i)
    requires Laid(pilr, c, |c|) && pilr.head.offset == CodeSize(c) <= buffer.Length
    requires i < |c| && instr == pilr.nodes[i] && switchBase == SwitchBase(Placed(c), i)
    modifies instr`opcode, buffer
    ensures PartlyWidened(pilr, c, i + 1) && PartlyPatched(buffer[..], c, i + 1)
    ensures (tooFar <==> TooFar(c, i)) && switchBase' == SwitchBase(Placed(c), i + 1)
  {
    hide ILRewriter.At, ILRewriter.Linked, PartlyPatched, Shaped, Targeted, Placed, Off, HasTarget, TooFar, OperandSize;
    assert RepresentsAt(pilr, c, i, c[i].op);
    tooFar, switchBase' := false, switchBase;
    NextBase(c, i);
    if instr.opcode == CEE_SWITCH {
      assert instr.offset == Off(c, i);
      switchBase' := instr.offset + 1 + 4 * (instr.arg.value + 1);
      NothingPatched(buffer[..], c, i);
      NotWidened(pilr, c, i);
    } else if instr.opcode == CEE_SWITCH_ARG {
      PatchArm(pilr, instr, buffer, switchBase, c, i);
    } else if HasTarget(instr.opcode) {
      tooFar := PatchBranch(pilr, instr, buffer, c, i);
    } else {
      NothingPatched(buffer[..], c, i);
      NotWidened(pilr, c, i);
    }
  }

  lemma NextBase(c: Code, i: nat)
    requires Shaped(c) && Targeted(c) && i < |c|
    ensures c[i].op == CEE_SWITCH ==>
              && c[i].arg.Bits? && !HasTarget(c[i].op) && OperandSize(c[i].op) > 0
              && SwitchBase(Placed(c), i + 1) == Off(c, i) + 1 + 4 * (c[i].arg.value + 1)
    ensures c[i].op != CEE_SWITCH ==> SwitchBase(Placed(c), i + 1) == SwitchBase(Placed(c), i)
    ensures !IsShortBranch(c[i].op) || !HasTarget(c[i].op) ==> !TooFar(c, i)
  {
    PlacedShape(c);
    assert ShapedAt(c, i);
  }

  lemma WidenedRepresented(pilr: ILRewriter, c: Code)
    requires Targeted(c) && PartlyWidened(pilr, c, |c|)
    ensures Represents(pilr, Widened(c))
  {
    hide TooFar, Targeted, Widen, ILRewriter.At;
    var d := Widened(c);
    forall i | 0 <= i < |d| ensures RepresentsAt(pilr, d, i, d[i].op) {
      assert RepresentsAt(pilr, c, i, if TooFar(c, i) then Widen(c[i].op) else c[i].op);
    }
  }

  lemma FitsUnchanged(c: Code)
    requires Targeted(c) && Fits(c)
    ensures Widened(c) == c
  {
    hide TooFar;
  }

  lemma NextRound(c: Code)
    requires Targeted(c) && Shaped(c)
    ensures Targeted(Widened(c)) && Shaped(Widened(c)) && Relaxed(Widened(c)) == Relaxed(c)
    ensures !Fits(c) ==> Shorts(Widened(c)) < Shorts(c)
  {
    hide Shaped, Targeted, TooFar;
    var d := Widened(c);
    WiderTargets(c, d);
    WiderShape(c, d);
    if Fits(c) {
      FitsUnchanged(c);
    } else {
      var k: nat :| k < |c| && TooFar(c, k);
      TooFarWidens(c, k);
      FewerShorts(c, d, k);
    }
  }

  lemma TooFarWidens(c: Code, k: nat)
    requires Targeted(c) && k < |c| && TooFar(c, k)
    ensures Widened(c)[k] != c[k]
  {
    hide InSigned;
  }

  /** Once every branch is complete, the buffer holds the code bytes. */
  lemma PatchedIsEncoding(b: seq<byte>, c: Code)
    requires Shaped(c) && Targeted(c) && Fits(c) && PartlyPatched(b, c, |c|) && CodeSize(c) <= |b|
    ensures b[..CodeSize(c)] == Encode(c)
  {
    hide ShapedAt, Placed, Targeted, TooFar, Chunk, OpcodeBytes, OpcodeSize, OperandSize, LE, OperandValue, HasTarget;
    var r := Placed(c);
    var x := b[..CodeSize(c)];
    PlacedShape(c);
    PlacedFacts(c);
    forall i | 0 <= i < |r| ensures ShapedAt(r, i) && HoldsAt(x, r, i) {
      assert ShapedAt(r, i) && !TooFar(c, i);
      assert Written(b, r, i, true);
      OffGrows(r, i + 1, |r|);
      CompleteHolds(b, x, r, i);
    }
    HoldsIsEncoding(x, r, 0);
    assert x[0..] == x;
  }

  lemma CompleteHolds(b: seq<byte>, x: seq<byte>, r: Code, i: nat)
    requires i < |r| && ShapedAt(r, i) && Written(b, r, i, true)
    requires Off(r, i + 1) <= |x| <= |b| && x == b[..|x|]
    ensures HoldsAt(x, r, i)
  {
    hide ShapedAt, OpcodeBytes, OpcodeSize, OperandSize, LE, OperandValue, HasTarget;
    WithinPrefix(b, Off(r, i), Off(r, i + 1), |x|);
    SubSlices(b, Off(r, i), Off(r, i) + OpcodeSize(r[i].op), Off(r, i + 1));
    SizeIs(r, i);
    var chunk := b[Off(r, i)..Off(r, i + 1)];
    assert chunk == chunk[..OpcodeSize(r[i].op)] + chunk[OpcodeSize(r[i].op)..];
  }

  lemma SizeIs(r: Code, i: nat)
    requires i < |r|
    ensures Off(r, i + 1) == Off(r, i) + OpcodeSize(r[i].op) + OperandSize(r[i].op)
  {
  }

  /** Writes the list as code bytes: passes over it until no short branch had to be made long.  The list then holds the
      relaxed code, every instruction knows its offset, and the buffer starts with the encoding. */
  method ExportCode(pilr: ILRewriter) returns (buffer: array<byte>, codeSize: nat)
    requires pilr.Valid() && WellFormed(pilr.View()) && Closed(pilr.View())
    requires Shaped(Indexed(pilr.View())) && Targeted(Indexed(pilr.View())) && 10 * pilr.nInstrs < TWO_TO_THE_31
    modifies (set n | n in pilr.nodes)`opcode, (set n | n in pilr.nodes)`offset, pilr.head`offset
    ensures pilr.Valid() && WellFormed(pilr.View()) && Closed(pilr.View())
    ensures var c := Relaxed(Indexed(old(pilr.View())));
            && Indexed(pilr.View()) == c && Shaped(c)
            && Laid(pilr, c, |c|) && pilr.head.offset == codeSize == CodeSize(c)
            && codeSize <= buffer.Length && buffer[..codeSize] == Encode(c)
  {
    hide ILRewriter.Linked, ILRewriter.View, Closed, Represents, Laid, PartlyPatched, PartlyWidened, Shaped, Targeted, Emitted,
         Relaxed, Fits, Encode, Placed;
    var maxSize := pilr.nInstrs * 10;
    buffer := new byte[maxSize];
    ghost var c := Indexed(pilr.View());
    ViewRepresents(pilr);
    var again := true;
    codeSize := 0;
    while again
      invariant pilr.Valid() && |c| == |pilr.nodes| && Represents(pilr, c) && Shaped(c) && Targeted(c)
      invariant Relaxed(c) == Relaxed(Indexed(old(pilr.View())))
      invariant !again ==> Fits(c) && Laid(pilr, c, |c|) && pilr.head.offset == codeSize == CodeSize(c) <= buffer.Length
      invariant !again ==> buffer[..codeSize] == Encode(c)
      decreases Shorts(c), again
    {
      SizeBound(c, |c|);
      var fBranch;
      codeSize, fBranch := EmitPass(pilr, buffer, c);
      again := false;
      if fBranch {
        again := ResolvePass(pilr, buffer, c);
        WidenedRepresented(pilr, c);
        if !again { FitsUnchanged(c); PatchedIsEncoding(buffer[..], c); }
      } else {
        NoBranches(buffer[..], c);
        FitsUnchanged(c);
        PatchedIsEncoding(buffer[..], c);
      }
      NextRound(c);
      if again { c := Widened(c); }
    }
    RelaxedFits(c);
    RepresentsView(pilr, c);
  }

  lemma RelaxedFits(c: Code)
    requires Targeted(c) && Fits(c)
    ensures Relaxed(c) == c
  {
  }

  lemma NoBranches(b: seq<byte>, c: Code)
    requires Shaped(c) && Targeted(c) && Emitted(b, Placed(c), |c|) && forall i :: 0 <= i < |c| ==> !HasTarget(c[i].op)
    ensures Fits(c) && PartlyPatched(b, c, |c|)
  {
    hide ShapedAt, Placed, OpcodeBytes, OpcodeSize, OperandSize, LE, OperandValue, HasTarget;
    PlacedFacts(c);
    forall i | 0 <= i < |c| ensures !TooFar(c, i) { NextBase(c, i); }
    forall i | 0 <= i < |c| ensures ShapedAt(Placed(c), i) && Written(b, Placed(c), i, i < |c| && !TooFar(c, i)) {
      assert ShapedAt(Placed(c), i) && Written(b, Placed(c), i, false);
    }
  }
}
