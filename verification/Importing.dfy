/** Reading a method body into the instruction list. */
module Importing {
  import opened Bytes
  import opened Opcodes
  import opened Listings
  import opened InstructionList
  import opened Codec

  datatype Status = Imported | InvalidCode | MissingTarget

  /** The code that a list represents: nodes become indices, and the sentinel the end of the code.  A target that is
      left over in an instruction without operand is no part of it. */
  function Indexed<N(==)>(l: Listing<N>): (c: Code)
    requires WellFormed(l)
    ensures |c| == |l.order|
  {
    seq(|l.order|, i requires 0 <= i < |l.order| => var x := l.code[l.order[i]]; Instr(x.op, IndexedOperand(l, x)))
  }

  function IndexedOperand<N(==)>(l: Listing<N>, x: Instr<N>): Operand<nat>
    requires WellFormed(l)
  {
    match x.arg
    case Bits(v) => Bits(v)
    case Target(n) => if OperandSize(x.op) == 0 then Bits(0) else Target(Place(l, n))
  }

  /** Only instructions with an operand refer to others. */
  predicate Plain<N(==)>(l: Listing<N>)
    requires WellFormed(l)
  {
    forall i :: 0 <= i < |l.order| && l.code[l.order[i]].arg.Target? ==> OperandSize(l.code[l.order[i]].op) > 0
  }

  /** What the pushes of the given code add to the maximal stack depth. */
  function Charge(c: Code): nat {
    if c == [] then 0 else Charge(c[..|c| - 1]) + Pushes(c[|c| - 1].op)
  }

  /** While the code is read, a branch operand is the byte offset of the target. */
  function Unresolved(arg: Operand<nat>): Operand<ILInstr> {
    match arg case Bits(v) => Bits(v) case Target(o) => Bits(o)
  }

  /** The list holds the instructions of `c`, with offsets for targets. */
  ghost predicate Raw(pilr: ILRewriter, c: Code)
    reads pilr`nodes, pilr.nodes`opcode, pilr.nodes`arg
  {
    && |pilr.nodes| == |c|
    && (forall i {:trigger pilr.nodes[i]} :: 0 <= i < |c| ==>
          pilr.nodes[i].opcode == c[i].op && pilr.nodes[i].arg == Unresolved(c[i].arg))
  }

  /** Some instruction starts at byte offset `o`. */
  ghost predicate StartsAt(c: Code, o: nat) {
    exists k: nat :: k < |c| && Starts(c, k) && Off(c, k) == o
  }

  /** The table maps the offset of every instruction to its node, the end of the code to the sentinel, and nothing else. */
  ghost predicate Indexes(table: seq<ILInstr?>, nodes: seq<ILInstr>, head: ILInstr, c: Code) {
    && |nodes| == |c| && table != []
    && (forall i :: 0 <= i < |c| && Starts(c, i) ==> Off(c, i) < |table| - 1 && table[Off(c, i)] == nodes[i])
    && (forall o :: 0 <= o < |table| - 1 && table[o] != null ==> StartsAt(c, o))
    && table[|table| - 1] == head
  }

  /** `c` has been read, and the rest of the code follows at `o`. */
  predicate ReadTo(b: seq<byte>, c: Code, o: nat) {
    && o <= |b| && Off(c, |c|) == o
    && ParseFrom(b, 0) == match ParseFrom(b, o) case Decoded(rest) => Decoded(c + rest) case other => other
  }

  lemma ReadOne(b: seq<byte>, c: Code, o: nat)
    requires ReadTo(b, c, o) && o < |b| && ParseInstr(b, o).Parsed?
    ensures ReadTo(b, c + ParseInstr(b, o).code, ParseInstr(b, o).next)
  {
    hide ParseInstr, Read, Off;
    var p := ParseInstr(b, o);
    var d := c + p.code;
    InstrNonempty(b, o);
    SameSizes(c, d, |c|);
    InstrRead(b, d, |c|);
    match ParseFrom(b, p.next)
    case Decoded(rest) => assert c + (p.code + rest) == d + rest;
    case _ =>
  }

  /** A new instruction at the end of the list. */
  method Append(pilr: ILRewriter, op: int) returns (instr: ILInstr)
    requires pilr.Valid()
    modifies pilr`maxStack, pilr`nodes, pilr`nInstrs, pilr.head`prev, pilr.At(|pilr.nodes|)`next
    ensures pilr.Valid() && pilr.nodes == old(pilr.nodes) + [instr] && fresh(instr)
    ensures instr.opcode == op
    ensures pilr.maxStack == old(pilr.maxStack) + Pushes(op)
  {
    instr := pilr.NewILInstr();
    instr.opcode := op;
    pilr.InsertBefore(pilr.head, instr, |pilr.nodes|);
  }

  /** Appends one instruction with its operand. */
  method AppendWith(pilr: ILRewriter, op: int, arg: Operand<ILInstr>, ghost c: Code, ghost x: Instr<nat>)
    returns (instr: ILInstr)
    requires pilr.Valid() && Raw(pilr, c) && x.op == op && Unresolved(x.arg) == arg
    modifies pilr`maxStack, pilr`nodes, pilr`nInstrs, pilr.head`prev, pilr.At(|pilr.nodes|)`next
    ensures pilr.Valid() && pilr.nodes == old(pilr.nodes) + [instr] && fresh(instr)
    ensures Raw(pilr, c + [x])
    ensures pilr.maxStack == old(pilr.maxStack) + Pushes(op)
  {
    hide ILRewriter.Linked, Pushes, Unresolved;
    instr := Append(pilr, op);
    instr.arg := arg;
  }

  /** The arms in front of offset `o` have been read, `rest` of them are still to come. */
  predicate ArmsTo(b: seq<byte>, start: nat, base: int, n: nat, arms: Code, o: nat, rest: nat) {
    && start <= |b| && o <= |b|
    && ParseArms(b, start, base, n) ==
         match ParseArms(b, o, base, rest) case Parsed(more, next) => Parsed(arms + more, next) case Malformed => Malformed
  }

  method ReadArms(pilr: ILRewriter, pIL: seq<byte>, start: nat, base: int, n: nat, ghost c: Code)
    returns (ok: bool, offset: nat, ghost arms: Code)
    requires pilr.Valid() && Raw(pilr, c) && start <= |pIL|
    modifies pilr`maxStack, pilr`nodes, pilr`nInstrs, pilr.head`prev, pilr.At(|pilr.nodes|)`next
    ensures pilr.Valid()
    ensures ok <==> ParseArms(pIL, start, base, n).Parsed?
    ensures ok ==> ParseArms(pIL, start, base, n) == Parsed(arms, offset) && Raw(pilr, c + arms)
    ensures pilr.maxStack == old(pilr.maxStack) && old(pilr.nodes) <= pilr.nodes
    ensures forall x :: x in pilr.nodes ==> x in old(pilr.nodes) || fresh(x)
  {
    hide ILRewriter.Linked, Raw, Signed, FromLE, ILRewriter.At;
    offset, arms := start, [];
    var iTarget := 0;
    assert c + [] == c;
    while iTarget < n
      invariant 0 <= iTarget <= n && pilr.Valid()
      invariant ArmsTo(pIL, start, base, n, arms, offset, n - iTarget)
      invariant Raw(pilr, c + arms)
      invariant pilr.maxStack == old(pilr.maxStack) && old(pilr.nodes) <= pilr.nodes
      invariant forall x :: x in pilr.nodes ==> x in old(pilr.nodes) || fresh(x)
      invariant iTarget == 0 ==> pilr.nodes == old(pilr.nodes)
      invariant iTarget > 0 ==> fresh(pilr.At(|pilr.nodes|))
    {
      if offset + 4 > |pIL| {
        return false, offset, arms;
      }
      var target := (base + Signed(FromLE(pIL[offset..offset + 4]), 4)) % TWO_TO_THE_32;
      ghost var x: Instr<nat> := Instr(CEE_SWITCH_ARG, Target(target));
      var instr := AppendWith(pilr, CEE_SWITCH_ARG, Bits(target), c + arms, x);
      assert c + arms + [x] == c + (arms + [x]);
      LastNode(pilr, instr);
      NextArm(pIL, start, base, n, arms, offset, n - iTarget, x);
      arms := arms + [x];
      offset := offset + 4;
      iTarget := iTarget + 1;
    }
    return true, offset, arms;
  }

  lemma LastNode(pilr: ILRewriter, instr: ILInstr)
    requires pilr.nodes != [] && pilr.nodes[|pilr.nodes| - 1] == instr
    ensures pilr.At(|pilr.nodes|) == instr
  {
  }

  lemma NextArm(b: seq<byte>, start: nat, base: int, n: nat, arms: Code, o: nat, rest: nat, x: Instr<nat>)
    requires ArmsTo(b, start, base, n, arms, o, rest) && rest > 0 && o + 4 <= |b|
    requires x == Instr(CEE_SWITCH_ARG, Target((base + Signed(FromLE(b[o..o + 4]), 4)) % TWO_TO_THE_32))
    ensures ArmsTo(b, start, base, n, arms + [x], o + 4, rest - 1)
  {
    hide Signed, FromLE;
    match ParseArms(b, o + 4, base, rest - 1)
    case Parsed(more, _) => assert arms + ([x] + more) == arms + [x] + more;
    case _ =>
  }

  lemma {:induction false} IndexesGrow(table: seq<ILInstr?>, nodes: seq<ILInstr>, head: ILInstr, c: Code, more: seq<ILInstr>, p: Code)
    requires Indexes(table, nodes, head, c) && |more| == |p| > 0
    requires p[0].op != CEE_SWITCH_ARG && forall j :: 0 < j < |p| ==> p[j].op == CEE_SWITCH_ARG
    requires Off(c, |c|) < |table| - 1
    requires forall i :: 0 <= i < |c| && Starts(c, i) ==> Off(c, i) < Off(c, |c|)
    ensures Indexes(table[Off(c, |c|) := more[0]], nodes + more, head, c + p)
  {
    hide Off;
    var d := c + p;
    forall i | 0 <= i <= |c| ensures Off(d, i) == Off(c, i) { SameSizes(c, d, i); }
    assert forall i :: 0 <= i < |c| ==> d[i] == c[i];
    assert d[|c|] == p[0];
    forall i | |c| < i < |d| ensures !Starts(d, i) { assert d[i] == p[i - |c|]; }
    var t := table[Off(c, |c|) := more[0]];
    forall o | 0 <= o < |t| - 1 && t[o] != null ensures StartsAt(d, o) {
      if o == Off(c, |c|) {
        var k: nat := |c|;
        assert Starts(d, k) && Off(d, k) == o;
      } else {
        assert StartsAt(c, o);
        var k: nat :| k < |c| && Starts(c, k) && Off(c, k) == o;
        assert Starts(d, k) && Off(d, k) == o;
      }
    }
  }

  /** The operand of the instruction `op`, whose opcode ends at `start`. */
  method ReadOperand(pilr: ILRewriter, pIL: seq<byte>, start: nat, op: int, table: array<ILInstr?>, startOffset: nat, ghost c: Code)
    returns (ok: bool, offset: nat, ghost p: Code)
    requires pilr.Valid() && Raw(pilr, c) && start <= |pIL| && startOffset < table.Length
    modifies pilr`maxStack, pilr`nodes, pilr`nInstrs, pilr.head`prev, pilr.At(|pilr.nodes|)`next, table
    ensures pilr.Valid()
    ensures ok <==> ParseOperand(pIL, start, op).Parsed?
    ensures ok ==>
      && ParseOperand(pIL, start, op) == Parsed(p, offset) && p != [] && p[0].op == op
      && Raw(pilr, c + p)
      && table[..] == old(table[..])[startOffset := pilr.nodes[|c|]]
      && pilr.maxStack == old(pilr.maxStack) + Pushes(op)
    ensures ok ==> old(pilr.nodes) <= pilr.nodes
    ensures forall x :: x in pilr.nodes ==> x in old(pilr.nodes) || fresh(x)
  {
    hide ILRewriter.Linked, Signed, FromLE, ILRewriter.At, OperandSize, Pushes;
    var size := if op == CEE_SWITCH then 0 else OperandSize(op);
    if start + size > |pIL| {
      return false, start, [];
    }
    if op != CEE_SWITCH {
      var v := Signed(FromLE(pIL[start..start + size]), size);
      var value := if HasTarget(op) then (start + size + v) % TWO_TO_THE_32 else v;
      p := [Instr(op, if HasTarget(op) then Target(value) else Bits(value))];
      var instr := AppendWith(pilr, op, Bits(value), c, p[0]);
      table[startOffset] := instr;
      return true, start + size, p;
    }
    if start + 4 > |pIL| {
      return false, start, [];
    }
    var nTargets := FromLE(pIL[start..start + 4]);
    ghost var x: Instr<nat> := Instr(op, Bits(nTargets));
    var instr := AppendWith(pilr, op, Bits(nTargets), c, x);
    table[startOffset] := instr;
    ghost var arms: Code;
    LastNode(pilr, instr);
    ok, offset, arms := ReadArms(pilr, pIL, start + 4, (start + 4 + nTargets * 4) % TWO_TO_THE_32, nTargets, c + [x]);
    p := [x] + arms;
    assert c + [x] + arms == c + p;
  }

  /** The state of the import loop: the code in front of `o` is in the list. */
  ghost predicate Importing(pilr: ILRewriter, pIL: seq<byte>, table: array<ILInstr?>, c: Code, o: nat)
    reads table, pilr`nodes, pilr.nodes`opcode, pilr.nodes`arg
  {
    && table.Length == |pIL| + 1
    && Raw(pilr, c) && Indexes(table[..], pilr.nodes, pilr.head, c) && ReadTo(pIL, c, o)
    && Sized(c)
  }

  predicate Sized(c: Code) {
    forall i :: 0 <= i < |c| ==> Size(c[i].op) > 0
  }

  lemma SizedOffsets(c: Code, i: nat)
    requires Sized(c) && i < |c|
    ensures Off(c, i) < Off(c, |c|)
  {
    OffGrows(c, i + 1, |c|);
    assert Off(c, i + 1) == Off(c, i) + Size(c[i].op);
  }

  lemma SizePositive(op: int)
    requires IsEncodable(op) || op == CEE_SWITCH_ARG
    ensures Size(op) > 0
  {
  }

  lemma OperandShape(b: seq<byte>, o: nat, op: int)
    requires o <= |b| && IsEncodable(op) && ParseOperand(b, o, op).Parsed?
    ensures var p := ParseOperand(b, o, op).code;
            p != [] && p[0].op == op && Sized(p) && forall j :: 0 < j < |p| ==> p[j].op == CEE_SWITCH_ARG
  {
    hide Signed, FromLE, ParseArms, OperandSize;
    SizePositive(op);
    if op == CEE_SWITCH {
      var n := FromLE(b[o..o + 4]);
      ArmsParsed(b, o + 4, (o + 4 + n * 4) % TWO_TO_THE_32, n);
      var p := ParseOperand(b, o, op).code;
      forall j | 0 < j < |p| ensures p[j].op == CEE_SWITCH_ARG {
        var i := j - 1;
        assert p[j] == ParseArms(b, o + 4, (o + 4 + n * 4) % TWO_TO_THE_32, n).code[i];
      }
      SizePositive(CEE_SWITCH_ARG);
    }
  }

  /** One round of the import loop. */
  method ReadInstr(pilr: ILRewriter, pIL: seq<byte>, startOffset: nat, table: array<ILInstr?>, ghost c: Code)
    returns (ok: bool, offset: nat, ghost d: Code)
    requires pilr.Valid() && startOffset < |pIL| && Importing(pilr, pIL, table, c, startOffset)
    modifies pilr`maxStack, pilr`nodes, pilr`nInstrs, pilr.head`prev, pilr.At(|pilr.nodes|)`next, table
    ensures pilr.Valid()
    ensures ok <==> ParseInstr(pIL, startOffset).Parsed?
    ensures ok ==> offset == ParseInstr(pIL, startOffset).next && Importing(pilr, pIL, table, d, offset)
    ensures ok ==> pilr.maxStack - Charge(d) == old(pilr.maxStack) - Charge(c)
    ensures forall x :: x in pilr.nodes ==> x in old(pilr.nodes) || fresh(x)
  {
    hide ILRewriter.Linked, ILRewriter.At, Raw, Indexes, ParseOperand, Pushes, Size, ParseFrom, Off;
    offset, d := startOffset + 1, c;
    var opcode: int := pIL[startOffset];
    if opcode == CEE_PREFIX1 {
      if offset >= |pIL| {
        return false, offset, d;
      }
      opcode := 0x100 + (pIL[offset] as int);
      offset := offset + 1;
    }
    if CEE_PREFIX7 <= opcode <= CEE_PREFIX2 {
      return false, offset, d;
    }
    if opcode >= CEE_COUNT {
      return false, offset, d;
    }
    ghost var p: Code;
    ghost var before := pilr.nodes;
    ok, offset, p := ReadOperand(pilr, pIL, offset, opcode, table, startOffset, c);
    if ok {
      d := c + p;
      assert |pilr.nodes| == |d| by { RawLength(pilr, d); }
      ReadOne(pIL, c, startOffset);
      Extended(pIL, startOffset, opcode, old(table[..]), table[..], before, pilr.nodes, pilr.head, c, p);
      ChargeAdds(c, p);
    }
  }

  lemma RawLength(pilr: ILRewriter, c: Code)
    requires Raw(pilr, c)
    ensures |pilr.nodes| == |c|
  {
  }

  lemma Extended(b: seq<byte>, o: nat, op: int, t: seq<ILInstr?>, t': seq<ILInstr?>, nodes: seq<ILInstr>, nodes': seq<ILInstr>,
                 head: ILInstr, c: Code, p: Code)
    requires o < |b| && ReadTo(b, c, o) && Sized(c) && |t| == |b| + 1 && Indexes(t, nodes, head, c)
    requires ParseInstr(b, o).Parsed? && p == ParseInstr(b, o).code && p != [] && p[0].op == op
    requires |nodes'| == |c + p| && nodes <= nodes' && t' == t[o := nodes'[|c|]]
    ensures Indexes(t', nodes', head, c + p) && Sized(c + p)
    ensures p[0].op == op && forall j :: 0 < j < |p| ==> p[j].op == CEE_SWITCH_ARG
  {
    hide Indexes, ParseOperand, Size, ParseFrom, Off;
    var o' := if b[o] == CEE_PREFIX1 then o + 2 else o + 1;
    var op' := if b[o] == CEE_PREFIX1 then 0x100 + (b[o + 1] as int) else b[o] as int;
    OperandShape(b, o', op');
    assert |nodes| == |c| by { IndexesLength(t, nodes, head, c); }
    forall i | 0 <= i < |c| ensures Off(c, i) < Off(c, |c|) { SizedOffsets(c, i); }
    var more := nodes'[|c|..];
    assert nodes' == nodes + more;
    IndexesGrow(t, nodes, head, c, more, p);
  }

  lemma IndexesLength(t: seq<ILInstr?>, nodes: seq<ILInstr>, head: ILInstr, c: Code)
    requires Indexes(t, nodes, head, c)
    ensures |nodes| == |c|
  {
  }

  /** The arms of a `switch` push nothing. */
  lemma {:induction false} ChargeAdds(c: Code, p: Code)
    requires p != [] && forall j :: 0 < j < |p| ==> p[j].op == CEE_SWITCH_ARG
    ensures Charge(c + p) == Charge(c) + Pushes(p[0].op)
    decreases |p|
  {
    var d := c + p;
    assert d[..|d| - 1] == c + p[..|p| - 1];
    if |p| > 1 { ChargeAdds(c, p[..|p| - 1]); } else { assert c + p[..0] == c; }
  }

  /** The list holds the instructions of `c`, those in front of `from` with nodes for targets. */
  ghost predicate PartlyResolved(pilr: ILRewriter, c: Code, from: nat)
    reads pilr`nodes, pilr.nodes`opcode, pilr.nodes`arg
  {
    && |pilr.nodes| == |c|
    && (forall i {:trigger pilr.nodes[i]} :: 0 <= i < |c| ==> pilr.nodes[i].opcode == c[i].op)
    && (forall i {:trigger pilr.nodes[i]} :: from <= i < |c| ==> pilr.nodes[i].arg == Unresolved(c[i].arg))
    && (forall i {:trigger pilr.nodes[i]} :: 0 <= i < from && i < |c| ==> HasResolved(pilr, c, i))
  }

  ghost predicate HasResolved(pilr: ILRewriter, c: Code, i: nat)
    requires |pilr.nodes| == |c| && i < |c|
    reads pilr`nodes, pilr.nodes`arg
  {
    match c[i].arg
    case Bits(v) => pilr.nodes[i].arg == Bits(v)
    case Target(o) => var k := IndexOf(c, o, |c|); k >= 0 && pilr.nodes[i].arg == Target(pilr.At(k + 1))
  }

  /** The table finds the instructions of the code `c` in the list. */
  ghost predicate OffsetTable(table: array<ILInstr?>, pilr: ILRewriter, c: Code)
    reads table, pilr`nodes
  {
    |pilr.nodes| == |c| && Shaped(c) && table.Length == CodeSize(c) + 1 && Indexes(table[..], pilr.nodes, pilr.head, c)
  }

  method GetInstrFromOffset(pilr: ILRewriter, table: array<ILInstr?>, offset: int, ghost c: Code) returns (instr: ILInstr?)
    requires OffsetTable(table, pilr, c) && offset >= 0
    ensures var k := IndexOf(c, offset, |c|); if k >= 0 then instr == pilr.At(k + 1) else instr == null
  {
    hide Shaped, Off, IndexOf;
    instr := null;
    AtSentinel(pilr, c);
    if offset < table.Length {
      instr := table[offset];
    }
    ghost var o: nat := offset;
    if o > CodeSize(c) {
      NotBeyond(c, o, |c|);
    } else if o < CodeSize(c) && instr != null {
      assert table[..][o] != null && StartsAt(c, o);
      var k: nat :| k < |c| && Starts(c, k) && Off(c, k) == o;
      IndexFound(c, k, |c|);
    }
  }

  lemma AtSentinel(pilr: ILRewriter, c: Code)
    requires |pilr.nodes| == |c|
    ensures pilr.At(|c| + 1) == pilr.head && IndexOf(c, CodeSize(c), |c|) == |c|
    ensures forall k :: 0 <= k < |c| ==> pilr.At(k + 1) == pilr.nodes[k]
  {
  }

  lemma {:induction false} NotBeyond(c: Code, o: nat, i: nat)
    requires i <= |c| && o > CodeSize(c)
    ensures IndexOf(c, o, i) < 0
  {
    OffGrows(c, i, |c|);
    if i > 0 { NotBeyond(c, o, i - 1); }
  }

  method SetTarget(pilr: ILRewriter, instr: ILInstr, target: ILInstr, ghost c: Code, ghost i: nat)
    requires pilr.Linked() && PartlyResolved(pilr, c, i) && i < |c| && instr == pilr.nodes[i]
    requires c[i].arg.Target? && var k := IndexOf(c, c[i].arg.node, |c|); k >= 0 && target == pilr.At(k + 1)
    modifies instr`arg
    ensures PartlyResolved(pilr, c, i + 1)
  {
    hide IndexOf;
    forall j | 0 <= j < i ensures HasResolved(pilr, c, j) { assert pilr.nodes[j].opcode == c[j].op; }
    instr.arg := Target(target);
    assert forall j :: 0 <= j < |c| && j != i ==> pilr.nodes[j] != instr;
    forall j | 0 <= j < i + 1 ensures HasResolved(pilr, c, j) {
      if j < i { assert old(HasResolved(pilr, c, j)); }
    }
  }

  /** An operand that is no target is what it was. */
  lemma SkipOperand(pilr: ILRewriter, c: Code, i: nat)
    requires PartlyResolved(pilr, c, i) && i < |c| && c[i].arg.Bits?
    ensures PartlyResolved(pilr, c, i + 1)
  {
    hide IndexOf;
    assert pilr.nodes[i].arg == Unresolved(c[i].arg);
    forall j | 0 <= j < i + 1 ensures HasResolved(pilr, c, j) { assert pilr.nodes[j].opcode == c[j].op; }
  }

  /** Replaces the byte offset in every branch by the node that starts there. */
  method ResolveTargets(pilr: ILRewriter, table: array<ILInstr?>, ghost c: Code) returns (ok: bool)
    requires pilr.Valid() && Raw(pilr, c) && Indexes(table[..], pilr.nodes, pilr.head, c)
    requires Shaped(c) && table.Length == CodeSize(c) + 1
    modifies (set n | n in pilr.nodes)`arg
    ensures pilr.Valid() && (ok <==> Resolvable(c))
    ensures ok ==> PartlyResolved(pilr, c, |c|)
  {
    hide ILRewriter.Linked, Indexes, InSigned, IsEncodable, HasTarget, HasArms, IndexOf, HasResolved, ILRewriter.At, PartlyResolved;
    var instr := pilr.head.next;
    ghost var i := 0;
    FirstNode(pilr);
    Standing(pilr, 0);
    assert PartlyResolved(pilr, c, 0) by { NoneResolved(pilr, c); }
    while instr != pilr.head
      invariant 0 <= i <= |c| && |pilr.nodes| == |c| && instr == pilr.At(i + 1)
      invariant pilr.Valid() && PartlyResolved(pilr, c, i)
      invariant forall j :: 0 <= j < i && c[j].arg.Target? ==> IndexOf(c, c[j].arg.node, |c|) >= 0
      invariant instr == pilr.head ==> i == |c|
      decreases |c| - i
    {
      Standing(pilr, i);
      NotResolved(pilr, c, i);
      assert ShapedAt(c, i);
      assert instr == pilr.nodes[i];
      if HasTarget(instr.opcode) {
        var target := GetInstrFromOffset(pilr, table, instr.arg.value, c);
        if target == null {
          return false;
        }
        SetTarget(pilr, instr, target, c, i);
      } else {
        SkipOperand(pilr, c, i);
      }
      instr := instr.next;
      i := i + 1;
      Standing(pilr, i);
    }
    return true;
  }

  lemma NoneResolved(pilr: ILRewriter, c: Code)
    requires Raw(pilr, c)
    ensures PartlyResolved(pilr, c, 0)
  {
  }

  lemma NotResolved(pilr: ILRewriter, c: Code, i: nat)
    requires PartlyResolved(pilr, c, i)
    ensures |pilr.nodes| == |c|
    ensures i < |c| ==> pilr.nodes[i].opcode == c[i].op && pilr.nodes[i].arg == Unresolved(c[i].arg)
  {
  }

  lemma FirstNode(pilr: ILRewriter)
    requires pilr.Linked()
    ensures pilr.head.next == pilr.At(1)
  {
    assert pilr.Ring()[0] == pilr.head;
  }

  lemma Standing(pilr: ILRewriter, i: nat)
    requires pilr.Linked() && i <= |pilr.nodes|
    ensures i < |pilr.nodes| <==> pilr.At(i + 1) != pilr.head
    ensures i < |pilr.nodes| ==> pilr.nodes[i] == pilr.At(i + 1) && pilr.nodes[i].next == pilr.At(i + 2)
  {
    assert i < |pilr.nodes| ==> pilr.Ring()[i + 1] == pilr.nodes[i];
  }

  lemma ResolvedView(pilr: ILRewriter, c: Code)
    requires pilr.Linked() && PartlyResolved(pilr, c, |c|) && Resolvable(c) && Shaped(c)
    ensures WellFormed(pilr.View()) && Indexed(pilr.View()) == Resolved(c) && |pilr.nodes| == |c|
    ensures Plain(pilr.View())
  {
    hide IndexOf;
    var l := pilr.View();
    forall i | 0 <= i < |c| ensures Indexed(l)[i] == Resolved(c)[i] {
      assert HasResolved(pilr, c, i) && ShapedAt(c, i);
      if c[i].arg.Target? {
        var k := IndexOf(c, c[i].arg.node, |c|);
        PlaceAt(pilr, k);
      }
    }
    forall i | 0 <= i < |l.order| && l.code[l.order[i]].arg.Target? ensures OperandSize(l.code[l.order[i]].op) > 0 {
      assert HasResolved(pilr, c, i) && ShapedAt(c, i);
      assert l.code[l.order[i]] == Instr(pilr.nodes[i].opcode, pilr.nodes[i].arg) && pilr.nodes[i].opcode == c[i].op;
    }
  }

  lemma PlaceAt(pilr: ILRewriter, k: nat)
    requires pilr.Linked() && k <= |pilr.nodes|
    ensures Place(pilr.View(), pilr.At(k + 1)) == k
  {
    if k < |pilr.nodes| {
      assert pilr.At(k + 1) == pilr.nodes[k];
      PosUnique(pilr.nodes, k);
    }
  }

  lemma ViewWellFormed(pilr: ILRewriter)
    requires pilr.Linked()
    ensures WellFormed(pilr.View())
  {
  }

  /** Reads the code bytes of a method.  The list then holds what the decoder makes of them, and the maximal stack depth
      has been raised by what the instructions push. */
  method ImportIL(pilr: ILRewriter, pIL: seq<byte>) returns (status: Status, offsetToInstr: array<ILInstr?>)
    requires pilr.Valid() && pilr.nodes == []
    modifies pilr, pilr.head
    ensures pilr.Valid() && WellFormed(pilr.View())
    ensures match Decode(pIL)
            case Decoded(c) =>
              && status == Imported && Indexed(pilr.View()) == c
              && pilr.maxStack == old(pilr.maxStack) + Charge(c)
            case InvalidProgram => status == InvalidCode
            case NoInstruction => status == MissingTarget
    ensures status == Imported ==> OffsetTable(offsetToInstr, pilr, Indexed(pilr.View())) && Plain(pilr.View())
    ensures fresh(set n | n in pilr.nodes) && pilr.clauses == old(pilr.clauses) && pilr.head.opcode == -1
  {
    hide ILRewriter.Linked, ILRewriter.View, ILRewriter.At, Raw, Indexes, ParseInstr, ParseFrom, Charge, Resolvable, Resolved,
         PartlyResolved, Sized, Plain;
    var codeSize := |pIL|;
    offsetToInstr := new ILInstr?[codeSize + 1](_ => null);
    offsetToInstr[codeSize] := pilr.head;
    pilr.head.opcode := -1;
    ghost var c: Code := [];
    var offset := 0;
    StartImport(pilr, pIL, offsetToInstr);
    while offset < codeSize
      invariant offset <= codeSize && pilr.Valid() && Importing(pilr, pIL, offsetToInstr, c, offset)
      invariant fresh(set n | n in pilr.nodes) && pilr.clauses == old(pilr.clauses) && pilr.head.opcode == -1
      invariant pilr.maxStack == old(pilr.maxStack) + Charge(c)
      decreases codeSize - offset
    {
      LastIsFresh(pilr);
      ghost var o: nat, d := offset, c;
      var ok;
      ok, offset, c := ReadInstr(pilr, pIL, offset, offsetToInstr, c);
      if !ok {
        ReadFails(pIL, d, o);
        ViewWellFormed(pilr);
        return InvalidCode, offsetToInstr;
      }
    }
    AllRead(pIL, c);
    var ok := ResolveTargets(pilr, offsetToInstr, c);
    ViewWellFormed(pilr);
    if !ok {
      return MissingTarget, offsetToInstr;
    }
    ResolvedView(pilr, c);
    ResolvedCharge(c);
    TableResolved(offsetToInstr, pilr, c);
    return Imported, offsetToInstr;
  }

  lemma TableResolved(table: array<ILInstr?>, pilr: ILRewriter, c: Code)
    requires OffsetTable(table, pilr, c) && Resolvable(c)
    ensures OffsetTable(table, pilr, Resolved(c))
  {
    hide ShapedAt;
    var d := Resolved(c);
    ResolvedPlaced(c);
    forall i | 0 <= i <= |c| ensures Off(d, i) == Off(c, i) { SameSizes(c, d, i); }
    forall o | 0 <= o < table.Length - 1 && table[o] != null ensures StartsAt(d, o) {
      assert table[..][o] != null && StartsAt(c, o);
      var k: nat :| k < |c| && Starts(c, k) && Off(c, k) == o;
      assert Starts(d, k) && Off(d, k) == o;
    }
  }

  lemma ReadFails(b: seq<byte>, c: Code, o: nat)
    requires ReadTo(b, c, o) && o < |b| && !ParseInstr(b, o).Parsed?
    ensures Decode(b) == InvalidProgram
  {
  }

  lemma AllRead(b: seq<byte>, c: Code)
    requires ReadTo(b, c, |b|)
    ensures ParseFrom(b, 0) == Decoded(c) && Shaped(c) && CodeSize(c) == |b|
    ensures Decode(b) == if Resolvable(c) then Decoded(Resolved(c)) else NoInstruction
  {
    hide Read;
    assert c + [] == c;
    assert c[0..] == c;
    CodeRead(b, c, 0);
    ReadIsShaped(b, c);
  }

  lemma ResolvedCharge(c: Code)
    requires Resolvable(c)
    ensures Charge(Resolved(c)) == Charge(c)
  {
    SameCharge(c, Resolved(c));
  }

  lemma {:induction false} SameCharge(c: Code, d: Code)
    requires |c| == |d| && forall i :: 0 <= i < |c| ==> c[i].op == d[i].op
    ensures Charge(c) == Charge(d)
  {
    if c != [] { SameCharge(c[..|c| - 1], d[..|d| - 1]); }
  }

  lemma StartImport(pilr: ILRewriter, pIL: seq<byte>, table: array<ILInstr?>)
    requires pilr.nodes == [] && table.Length == |pIL| + 1 && table[|pIL|] == pilr.head
    requires forall o :: 0 <= o < |pIL| ==> table[o] == null
    ensures Importing(pilr, pIL, table, [], 0) && Charge([]) == 0
  {
    match ParseFrom(pIL, 0)
    case Decoded(rest) => assert [] + rest == rest;
    case _ =>
  }

  lemma LastIsFresh(pilr: ILRewriter)
    ensures pilr.At(|pilr.nodes|) in pilr.nodes || pilr.At(|pilr.nodes|) == pilr.head
  {
  }
}
