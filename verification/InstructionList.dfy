/** The rewriter's circular doubly linked list of instructions. */
module InstructionList {
  import opened Opcodes
  import opened Listings

  class ILInstr {
    var next: ILInstr?
    var prev: ILInstr?
    var opcode: int
    var offset: int
    var arg: Operand<ILInstr>

    constructor ()
      ensures next == null && prev == null && opcode == 0 && offset == 0 && arg == Bits(0)
    {
      next, prev, opcode, offset, arg := null, null, 0, 0, Bits(0);
    }
  }

  /** Neighbours in the sequence are linked both ways. */
  ghost predicate Chained(ring: seq<ILInstr>)
    reads ring`next, ring`prev
  {
    && (forall i {:trigger ring[i].next} :: 0 <= i < |ring| - 1 ==> ring[i].next == ring[i + 1])
    && (forall i {:trigger ring[i].prev} :: 0 < i < |ring| ==> ring[i].prev == ring[i - 1])
  }

  /** The chain is intact but for the two links that lead to `what` between positions `p` and `p + 1`. */
  ghost predicate Opened(ring: seq<ILInstr>, p: nat, what: ILInstr)
    reads ring`next, ring`prev, what`next, what`prev
  {
    && p + 1 < |ring|
    && (forall i {:trigger ring[i].next} :: 0 <= i < |ring| - 1 ==> ring[i].next == if i == p then what else ring[i + 1])
    && (forall i {:trigger ring[i].prev} :: 0 < i < |ring| ==> ring[i].prev == if i == p + 1 then what else ring[i - 1])
    && what.next == ring[p + 1] && what.prev == ring[p]
  }

  lemma OpenedChained(ring: seq<ILInstr>, p: nat, what: ILInstr)
    requires Opened(ring, p, what)
    ensures Chained(ring[..p + 1] + [what] + ring[p + 1..])
  {
    var ring' := ring[..p + 1] + [what] + ring[p + 1..];
    forall i | 0 <= i < |ring'| - 1 ensures ring'[i].next == ring'[i + 1] {
      if i > p + 1 { assert ring'[i] == ring[i - 1]; } else if i <= p { assert ring'[i] == ring[i]; }
    }
    forall i | 0 < i < |ring'| ensures ring'[i].prev == ring'[i - 1] {
      if i > p + 1 { assert ring'[i] == ring[i - 1]; } else if i <= p { assert ring'[i] == ring[i]; }
    }
  }

  /** Only the two ends of a ring are the same node. */
  predicate IsRing(ring: seq<ILInstr>) {
    && |ring| >= 2
    && (forall i, j :: 0 <= i < j < |ring| && ring[i] == ring[j] ==> i == 0 && j == |ring| - 1)
  }

  class ILRewriter {
    /** The sentinel that closes the ring. */
    const head: ILInstr
    var maxStack: nat
    var nInstrs: nat
    var clauses: seq<Clause<ILInstr>>
    /** The instructions in list order. */
    ghost var nodes: seq<ILInstr>

    /** An empty list, for a method with the given maximal stack depth. */
    constructor (depth: nat)
      ensures Valid() && nodes == [] && maxStack == depth && clauses == [] && fresh(head)
    {
      var h := new ILInstr();
      head, maxStack, nInstrs, clauses, nodes := h, depth, 0, [], [];
      new;
      head.next, head.prev := head, head;
      head.opcode := -1;
    }

    /** The ring, cut open at the sentinel. */
    ghost function Ring(): seq<ILInstr>
      reads this`nodes
    {
      [head] + nodes + [head]
    }

    /** Position `i` of the ring: the sentinel stands at both ends. */
    ghost function At(i: nat): ILInstr
      requires i <= |nodes| + 1
      reads this`nodes
    {
      Ring()[i]
    }

    ghost predicate Linked()
      reads this`nodes, head`next, head`prev, nodes`next, nodes`prev
    {
      && Distinct(nodes) && head !in nodes
      && Chained(Ring())
    }

    ghost predicate Valid()
      reads this`nodes, this`nInstrs, head`next, head`prev, nodes`next, nodes`prev
    {
      Linked() && nInstrs == |nodes|
    }

    ghost function View(): Listing<ILInstr>
      reads this`nodes, this`clauses, nodes`opcode, nodes`arg
    {
      Listing(nodes, head, map n | n in nodes :: Instr(n.opcode, n.arg), clauses)
    }

    lemma RingShape()
      requires Distinct(nodes) && head !in nodes
      ensures IsRing(Ring()) && forall n :: n in Ring() <==> n in nodes || n == head
    {
      var r := Ring();
      assert r[0] == head && r[|nodes| + 1] == head;
      assert forall i :: 0 < i <= |nodes| ==> r[i] == nodes[i - 1];
    }

    /** A new instruction, counted but not yet in the list. */
    method NewILInstr() returns (instr: ILInstr)
      modifies this`nInstrs
      ensures nInstrs == old(nInstrs) + 1
      ensures fresh(instr) && instr.opcode == 0 && instr.offset == 0 && instr.arg == Bits(0)
    {
      nInstrs := nInstrs + 1;
      instr := new ILInstr();
    }

    /** Splices `what` in front of `where`, which is node `p` or, for `p == |nodes|`, the sentinel. */
    method InsertBefore(where: ILInstr, what: ILInstr, ghost p: nat)
      requires Linked() && p <= |nodes| && where == At(p + 1)
      requires what !in nodes && what != head
      modifies this`maxStack, this`nodes, where`prev, At(p)`next, what`next, what`prev
      ensures Linked()
      ensures nodes == old(nodes)[..p] + [what] + old(nodes)[p..]
      ensures maxStack == old(maxStack) + Pushes(what.opcode)
    {
      what.next := where;
      what.prev := where.prev;
      Close(what, p);
    }

    /** Splices `what` in behind `where`, which is node `p - 1` or, for `p == 0`, the sentinel. */
    method InsertAfter(where: ILInstr, what: ILInstr, ghost p: nat)
      requires Linked() && p <= |nodes| && where == At(p)
      requires what !in nodes && what != head
      modifies this`maxStack, this`nodes, where`next, At(p + 1)`prev, what`next, what`prev
      ensures Linked()
      ensures nodes == old(nodes)[..p] + [what] + old(nodes)[p..]
      ensures maxStack == old(maxStack) + Pushes(what.opcode)
    {
      what.next := where.next;
      what.prev := where;
      Close(what, p);
    }

    /** Makes the neighbours of `what` point to it. */
    method Close(what: ILInstr, ghost p: nat)
      requires Linked() && p <= |nodes| && what !in nodes && what != head
      requires what.next == At(p + 1) && what.prev == At(p)
      modifies this`maxStack, this`nodes, At(p)`next, At(p + 1)`prev
      ensures Linked()
      ensures nodes == old(nodes)[..p] + [what] + old(nodes)[p..]
      ensures maxStack == old(maxStack) + Pushes(what.opcode)
    {
      ghost var ring := Ring();
      RingShape();
      what.next.prev := what;
      what.prev.next := what;
      AdjustState(what);
      assert Opened(ring, p, what);
      OpenedChained(ring, p, what);
      nodes := nodes[..p] + [what] + nodes[p..];
      assert Ring() == ring[..p + 1] + [what] + ring[p + 1..];
    }

    method AdjustState(instr: ILInstr)
      modifies this`maxStack
      ensures maxStack == old(maxStack) + Pushes(instr.opcode)
    {
      maxStack := maxStack + Pushes(instr.opcode);
    }
  }
}
