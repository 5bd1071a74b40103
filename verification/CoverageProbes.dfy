/** Splicing probe calls into the instruction list. */
module CoverageProbes {
  import opened Opcodes
  import opened Listings
  import opened Machine
  import opened Blocks
  import opened Growth
  import opened Insertion
  import opened InstructionList

  type int32 = v: int | -0x8000_0000 <= v < 0x8000_0000

  /** The address of a probe and the token of its signature. */
  datatype ProbeCall = ProbeCall(addr: int, sig: int32)

  /** The event a call of a two-argument probe logs. */
  function EventFor(probe: ProbeCall, offset: int, methodId: int): Event {
    Event(probe.addr, [offset, methodId])
  }

  method AddInstrBefore(pilr: ILRewriter, where: ILInstr, opcode: int, arg: Operand<ILInstr>, ghost p: nat) returns (instr: ILInstr)
    requires pilr.Valid() && p <= |pilr.nodes| && where == pilr.At(p + 1)
    modifies pilr`nInstrs, pilr`maxStack, pilr`nodes, where`prev, pilr.At(p)`next
    ensures pilr.Valid() && pilr.nodes == old(pilr.nodes)[..p] + [instr] + old(pilr.nodes)[p..]
    ensures fresh(instr) && instr.opcode == opcode && instr.arg == arg && instr.offset == 0
    ensures pilr.maxStack == old(pilr.maxStack) + Pushes(opcode)
  {
    instr := pilr.NewILInstr();
    instr.opcode := opcode;
    instr.arg := arg;
    pilr.InsertBefore(where, instr, p);
  }

  method AddLDCInstrBefore(pilr: ILRewriter, where: ILInstr, arg: int, ghost p: nat) returns (instr: ILInstr)
    requires pilr.Valid() && p <= |pilr.nodes| && where == pilr.At(p + 1)
    modifies pilr`nInstrs, pilr`maxStack, pilr`nodes, where`prev, pilr.At(p)`next
    ensures pilr.Valid() && pilr.nodes == old(pilr.nodes)[..p] + [instr] + old(pilr.nodes)[p..]
    ensures fresh(instr) && instr.opcode == CEE_LDC_I4 && instr.arg == Bits(arg) && instr.offset == 0
    ensures pilr.maxStack == old(pilr.maxStack) + 1
  {
    instr := AddInstrBefore(pilr, where, CEE_LDC_I4, Bits(arg), p);
  }

  /** Loads the address of the probe and calls it. */
  method AddProbe(pilr: ILRewriter, probe: ProbeCall, where: ILInstr, ghost p: nat) returns (ghost load: ILInstr, ghost call: ILInstr)
    requires pilr.Valid() && p <= |pilr.nodes| && where == pilr.At(p + 1)
    modifies pilr`nInstrs, pilr`maxStack, pilr`nodes, where`prev, pilr.At(p)`next
    ensures pilr.Valid() && pilr.nodes == old(pilr.nodes)[..p] + [load, call] + old(pilr.nodes)[p..]
    ensures fresh(load) && load.opcode == CEE_LDC_I8 && load.arg == Bits(probe.addr) && load.offset == 0
    ensures fresh(call) && call.opcode == CEE_CALLI && call.arg == Bits(probe.sig) && call.offset == 0
    ensures pilr.maxStack == old(pilr.maxStack) + 2
  {
    hide ILRewriter.Linked;
    var a := AddInstrBefore(pilr, where, CEE_LDC_I8, Bits(probe.addr), p);
    var b := AddInstrBefore(pilr, where, CEE_CALLI, Bits(probe.sig), p + 1);
    load, call := a, b;
  }

  /** The call of a two-argument probe in front of `where`. */
  method AddProbeCall(pilr: ILRewriter, where: ILInstr, probe: ProbeCall, offset: int, methodId: int, ghost p: nat)
    returns (ghost f: seq<ILInstr>)
    requires pilr.Valid() && p <= |pilr.nodes| && where == pilr.At(p + 1)
    modifies pilr`nInstrs, pilr`maxStack, pilr`nodes, where`prev, pilr.At(p)`next
    ensures pilr.Valid() && pilr.nodes == old(pilr.nodes)[..p] + f + old(pilr.nodes)[p..]
    ensures |f| == 4 && (forall n :: n in f ==> fresh(n) && n.offset == 0)
    ensures f[0].opcode == CEE_LDC_I4 && f[0].arg == Bits(offset) && f[1].opcode == CEE_LDC_I4 && f[1].arg == Bits(methodId)
    ensures f[2].opcode == CEE_LDC_I8 && f[2].arg == Bits(probe.addr) && f[3].opcode == CEE_CALLI && IsToken(f[3].arg)
    ensures pilr.maxStack == old(pilr.maxStack) + 4
  {
    hide ILRewriter.Linked;
    var a := AddLDCInstrBefore(pilr, where, offset, p);
    var b := AddLDCInstrBefore(pilr, where, methodId, p + 1);
    ghost var c, d := AddProbe(pilr, probe, where, p + 2);
    f := [a, b, c, d];
    assert pilr.nodes == old(pilr.nodes)[..p] + f + old(pilr.nodes)[p..];
  }

  /** Handlers that ended with `instr` now end with `last`. */
  method CorrectHandlers(pilr: ILRewriter, instr: ILInstr, last: ILInstr)
    modifies pilr`clauses
    ensures |pilr.clauses| == |old(pilr.clauses)|
    ensures forall i :: 0 <= i < |pilr.clauses| ==> pilr.clauses[i] == MoveEnd(old(pilr.clauses)[i], instr, last)
  {
    for i := 0 to |pilr.clauses|
      invariant |pilr.clauses| == |old(pilr.clauses)|
      invariant forall j :: 0 <= j < i ==> pilr.clauses[j] == MoveEnd(old(pilr.clauses)[j], instr, last)
      invariant forall j :: i <= j < |pilr.clauses| ==> pilr.clauses[j] == old(pilr.clauses)[j]
    {
      if pilr.clauses[i].handlerEnd == instr {
        pilr.clauses := pilr.clauses[i := pilr.clauses[i].(handlerEnd := last)];
      }
    }
  }

  /** The list is `l` with `f` behind node `p`; apart from that node, the instructions of `l` are still in place. */
  ghost predicate NowSpliced(l: Listing<ILInstr>, pilr: ILRewriter, p: nat, f: seq<ILInstr>)
    reads pilr, pilr.nodes, l.order
  {
    && WellFormed(l) && p < |l.order| && f != [] && l.end == pilr.head
    && pilr.nodes == l.order[..p + 1] + f + l.order[p + 1..]
    && Distinct(pilr.nodes) && pilr.head !in pilr.nodes
    && (forall i :: 0 <= i < |l.order| && i != p ==> l.code[l.order[i]] == Instr(l.order[i].opcode, l.order[i].arg))
  }

  lemma {:induction false} ViewSpliced(l: Listing<ILInstr>, pilr: ILRewriter, p: nat, f: seq<ILInstr>)
    requires NowSpliced(l, pilr, p, f)
    ensures Spliced(l, pilr.View(), l.order[p], f)
    ensures l.order[p] in pilr.nodes && forall i :: 0 <= i < |f| ==> f[i] in pilr.nodes
  {
    hide Distinct, Pos;
    PosUnique(l.order, p);
    var l' := pilr.View();
    assert pilr.nodes[p] == l.order[p];
    forall i | 0 <= i < |f| ensures f[i] in pilr.nodes { assert pilr.nodes[p + 1 + i] == f[i]; }
    forall n | n in l.order && n != l.order[p] ensures n in l'.code && l'.code[n] == l.code[n] {
      var i := Pos(l.order, n);
      assert pilr.nodes[if i <= p then i else i + |f|] == n;
      assert l.code[l.order[i]] == Instr(l.order[i].opcode, l.order[i].arg);
    }
  }

  /** The nodes `f` hold the call of a two-argument probe, followed by one more node. */
  ghost predicate HoldCall(f: seq<ILInstr>, e: Event)
    reads f
  {
    && |f| == 5 && |e.args| == 2
    && f[0].opcode == CEE_LDC_I4 && f[0].arg == Bits(e.args[0]) && f[1].opcode == CEE_LDC_I4 && f[1].arg == Bits(e.args[1])
    && f[2].opcode == CEE_LDC_I8 && f[2].arg == Bits(e.probe) && f[3].opcode == CEE_CALLI && IsToken(f[3].arg)
  }

  lemma SplicedTwice<T>(o: seq<T>, p: nat, last: T, g: seq<T>)
    requires p < |o|
    ensures var s := o[..p + 1] + [last] + o[p + 1..];
            s[..p + 1] + g + s[p + 1..] == o[..p + 1] + (g + [last]) + o[p + 1..]
  {
  }

  lemma SplicedMembers<T>(o: seq<T>, p: nat, last: T, g: seq<T>)
    requires p < |o|
    ensures var s := o[..p + 1] + [last] + o[p + 1..];
            forall n :: n in s[..p + 1] + g + s[p + 1..] ==> n in o || n in g + [last]
  {
    SplicedTwice(o, p, last, g);
  }

  /** The list is `l` with `last` behind node `p` and the probe call `g` between the two. */
  ghost predicate NowProbed(l: Listing<ILInstr>, pilr: ILRewriter, p: nat, last: ILInstr, g: seq<ILInstr>, e: Event)
    reads pilr, pilr.nodes, l.order, last, g
  {
    && WellFormed(l) && p < |l.order| && l.end == pilr.head
    && Distinct(pilr.nodes) && pilr.head !in pilr.nodes
    && (var s := l.order[..p + 1] + [last] + l.order[p + 1..]; pilr.nodes == s[..p + 1] + g + s[p + 1..])
    && HoldCall(g + [last], e)
    && |pilr.clauses| == |l.clauses|
    && (forall i :: 0 <= i < |l.clauses| ==> pilr.clauses[i] == MoveEnd(l.clauses[i], l.order[p], last))
    && (forall i :: 0 <= i < |l.order| && i != p ==> l.code[l.order[i]] == Instr(l.order[i].opcode, l.order[i].arg))
  }

  lemma {:induction false} ViewCall(l: Listing<ILInstr>, pilr: ILRewriter, p: nat, last: ILInstr, g: seq<ILInstr>, e: Event)
    requires NowProbed(l, pilr, p, last, g, e)
    ensures Grown(l, pilr.View(), l.order[p], g + [last]) && IsCallOf(pilr.View().code, (g + [last])[..4], e)
    ensures l.order[p] in pilr.nodes && last in pilr.nodes
  {
    hide Spliced, Distinct, WellFormed;
    SplicedTwice(l.order, p, last, g);
    ViewSpliced(l, pilr, p, g + [last]);
    assert (g + [last])[4] == last;
  }

  lemma ViewAfter(l: Listing<ILInstr>, pilr: ILRewriter, p: nat, last: ILInstr, g: seq<ILInstr>, e: Event)
    requires NowProbed(l, pilr, p, last, g, e)
    requires l.code[l.order[p]] == Instr(l.order[p].opcode, l.order[p].arg) && last.opcode == CEE_NOP
    ensures ProbedAfter(l, pilr.View(), l.order[p], g + [last], e)
  {
    hide Spliced, EndsMoved, Grown, IsCallOf;
    ViewCall(l, pilr, p, last, g, e);
  }

  lemma ViewBefore(l: Listing<ILInstr>, pilr: ILRewriter, p: nat, last: ILInstr, g: seq<ILInstr>, e: Event)
    requires NowProbed(l, pilr, p, last, g, e)
    requires l.order[p].opcode == CEE_NOP && l.code[l.order[p]] == Instr(last.opcode, last.arg)
    ensures ProbedBefore(l, pilr.View(), l.order[p], g + [last], e)
  {
    hide Spliced, EndsMoved, Grown, IsCallOf;
    ViewCall(l, pilr, p, last, g, e);
  }

  /** Puts a `nop` behind `instr` and calls the probe between the two. */
  method PlaceNop(pilr: ILRewriter, instr: ILInstr, probe: ProbeCall, methodId: int, ghost p: nat)
    returns (nop: ILInstr, ghost g: seq<ILInstr>)
    requires pilr.Valid() && p < |pilr.nodes| && instr == pilr.nodes[p]
    modifies pilr`nInstrs, pilr`maxStack, pilr`nodes, instr`next, pilr.At(p + 2)`prev
    ensures pilr.Valid()
    ensures var s := old(pilr.nodes)[..p + 1] + [nop] + old(pilr.nodes)[p + 1..]; pilr.nodes == s[..p + 1] + g + s[p + 1..]
    ensures fresh(nop) && nop.opcode == CEE_NOP && nop.offset == 0
    ensures HoldCall(g + [nop], EventFor(probe, instr.offset, methodId))
    ensures forall n :: n in g ==> fresh(n) && n.offset == 0
    ensures pilr.maxStack == old(pilr.maxStack) + 4
  {
    hide Distinct, Chained;
    nop := pilr.NewILInstr();
    nop.opcode := CEE_NOP;
    pilr.InsertAfter(instr, nop, p + 1);
    g := AddProbeCall(pilr, nop, probe, instr.offset, methodId, p + 1);
  }

  /** Puts a probe behind `instr`; returns the `nop` the probe ends with. */
  method AddCoverageProbeAfter(pilr: ILRewriter, instr: ILInstr, probe: ProbeCall, methodId: int, ghost p: nat)
    returns (last: ILInstr, ghost f: seq<ILInstr>)
    requires pilr.Valid() && p < |pilr.nodes| && instr == pilr.nodes[p]
    modifies pilr`nInstrs, pilr`maxStack, pilr`nodes, pilr`clauses, instr`next, pilr.At(p + 2)`prev
    ensures pilr.Valid() && ProbedAfter(old(pilr.View()), pilr.View(), instr, f, EventFor(probe, instr.offset, methodId))
    ensures forall n :: n in f ==> fresh(n) && n.offset == 0
    ensures forall n :: n in pilr.nodes ==> n in old(pilr.nodes) || n in f
    ensures pilr.maxStack == old(pilr.maxStack) + 4
  {
    hide ProbedAfter, Distinct, Chained, ILRewriter.Linked, ILRewriter.View;
    ghost var l := pilr.View();
    ViewNow(pilr);
    ghost var g;
    last, g := PlaceNop(pilr, instr, probe, methodId, p);
    CorrectHandlers(pilr, instr, last);
    f := g + [last];
    NodesDistinct(pilr);
    SplicedMembers(l.order, p, last, g);
    ViewAfter(l, pilr, p, last, g, EventFor(probe, instr.offset, methodId));
  }

  lemma ViewNow(pilr: ILRewriter)
    requires pilr.Linked()
    ensures var l := pilr.View();
            && WellFormed(l) && l.order == pilr.nodes && l.end == pilr.head && l.clauses == pilr.clauses
            && Distinct(pilr.nodes) && pilr.head !in pilr.nodes
            && (forall i :: 0 <= i < |l.order| ==> l.code[l.order[i]] == Instr(l.order[i].opcode, l.order[i].arg))
  {
  }

  lemma NodesDistinct(pilr: ILRewriter)
    requires pilr.Linked()
    ensures Distinct(pilr.nodes) && pilr.head !in pilr.nodes
  {
  }

  lemma OthersDiffer(s: seq<ILInstr>, p: nat)
    requires Distinct(s) && p < |s|
    ensures forall i :: 0 <= i < |s| && i != p ==> s[i] != s[p]
  {
  }

  /** Puts a copy of `instr` behind it, turns `instr` into a `nop` and calls the probe between the two. */
  method PlaceCopy(pilr: ILRewriter, instr: ILInstr, probe: ProbeCall, methodId: int, ghost p: nat)
    returns (copy: ILInstr, ghost g: seq<ILInstr>)
    requires pilr.Valid() && p < |pilr.nodes| && instr == pilr.nodes[p]
    modifies pilr`nInstrs, pilr`maxStack, pilr`nodes, instr`next, instr`opcode, pilr.At(p + 2)`prev
    ensures pilr.Valid()
    ensures var s := old(pilr.nodes)[..p + 1] + [copy] + old(pilr.nodes)[p + 1..]; pilr.nodes == s[..p + 1] + g + s[p + 1..]
    ensures fresh(copy) && copy.opcode == old(instr.opcode) && copy.arg == instr.arg && copy.offset == 0
    ensures instr.opcode == CEE_NOP && HoldCall(g + [copy], EventFor(probe, instr.offset, methodId))
    ensures forall n :: n in g ==> fresh(n) && n.offset == 0
    ensures pilr.maxStack == old(pilr.maxStack) + 4 + Pushes(old(instr.opcode))
  {
    hide Distinct, Chained;
    copy := pilr.NewILInstr();
    copy.opcode := instr.opcode;
    copy.arg := instr.arg;
    pilr.InsertAfter(instr, copy, p + 1);
    instr.opcode := CEE_NOP;
    g := AddProbeCall(pilr, copy, probe, instr.offset, methodId, p + 1);
  }

  /** Puts a probe in front of `instr`; returns the copy of the instruction behind the probe. */
  method AddCoverageProbeBefore(pilr: ILRewriter, instr: ILInstr, probe: ProbeCall, methodId: int, ghost p: nat)
    returns (last: ILInstr, ghost f: seq<ILInstr>)
    requires pilr.Valid() && p < |pilr.nodes| && instr == pilr.nodes[p]
    modifies pilr`nInstrs, pilr`maxStack, pilr`nodes, pilr`clauses, instr`next, instr`opcode, pilr.At(p + 2)`prev
    ensures pilr.Valid() && ProbedBefore(old(pilr.View()), pilr.View(), instr, f, EventFor(probe, instr.offset, methodId))
    ensures forall n :: n in f ==> fresh(n) && n.offset == 0
    ensures forall n :: n in pilr.nodes ==> n in old(pilr.nodes) || n in f
    ensures pilr.maxStack == old(pilr.maxStack) + 4 + Pushes(old(instr.opcode))
  {
    hide ProbedBefore, Distinct, Chained, ILRewriter.Linked, ILRewriter.View;
    ghost var l := pilr.View();
    ViewNow(pilr);
    OthersDiffer(pilr.nodes, p);
    ghost var g;
    last, g := PlaceCopy(pilr, instr, probe, methodId, p);
    CorrectHandlers(pilr, instr, last);
    f := g + [last];
    NodesDistinct(pilr);
    SplicedMembers(l.order, p, last, g);
    ViewBefore(l, pilr, p, last, g, EventFor(probe, instr.offset, methodId));
  }

  /** The nodes `f` hold the call of the three-argument probe at the start of a method. */
  ghost predicate HoldEnter(f: seq<ILInstr>, probe: ProbeCall, offset: int, methodId: int)
    reads f
  {
    && |f| == 5
    && f[0].opcode == CEE_LDC_I4 && f[0].arg == Bits(offset) && f[1].opcode == CEE_LDC_I4 && f[1].arg == Bits(methodId)
    && f[2].opcode == CEE_LDC_I4_0 && f[3].opcode == CEE_LDC_I8 && f[3].arg == Bits(probe.addr) && f[4].opcode == CEE_CALLI && IsToken(f[4].arg)
  }

  method PlaceEnter(pilr: ILRewriter, probe: ProbeCall, methodId: int) returns (ghost f: seq<ILInstr>)
    requires pilr.Valid()
    modifies pilr`nInstrs, pilr`maxStack, pilr`nodes, pilr.head`next, pilr.At(1)`prev
    ensures pilr.Valid() && pilr.nodes == f + old(pilr.nodes)
    ensures HoldEnter(f, probe, old(pilr.At(1)).offset, methodId)
    ensures forall n :: n in f ==> fresh(n)
    ensures pilr.maxStack == old(pilr.maxStack) + 5
  {
    hide Distinct, Chained, ILRewriter.Linked;
    ghost var before := pilr.nodes;
    var first := FirstOf(pilr);
    var a := AddLDCInstrBefore(pilr, first, first.offset, 0);
    var b := AddLDCInstrBefore(pilr, first, methodId, 1);
    var c := AddInstrBefore(pilr, first, CEE_LDC_I4_0, Bits(0), 2);
    ghost var d, e := AddProbe(pilr, probe, first, 3);
    f := [a, b, c, d, e];
    FiveInFront(before, a, b, c, d, e);
  }

  lemma FiveInFront(s: seq<ILInstr>, a: ILInstr, b: ILInstr, c: ILInstr, d: ILInstr, e: ILInstr)
    ensures var s1 := s[..0] + [a] + s[0..]; var s2 := s1[..1] + [b] + s1[1..]; var s3 := s2[..2] + [c] + s2[2..];
            s3[..3] + [d, e] + s3[3..] == [a, b, c, d, e] + s
  {
  }

  method FirstOf(pilr: ILRewriter) returns (first: ILInstr)
    requires pilr.Linked()
    ensures first == pilr.At(1)
  {
    assert pilr.Ring()[0] == pilr.head;
    first := pilr.head.next;
  }

  lemma ViewPrepended(l: Listing<ILInstr>, pilr: ILRewriter, f: seq<ILInstr>)
    requires WellFormed(l) && l.end == pilr.head && pilr.nodes == f + l.order && pilr.clauses == l.clauses
    requires Distinct(pilr.nodes) && pilr.head !in pilr.nodes
    requires forall i :: 0 <= i < |l.order| ==> l.code[l.order[i]] == Instr(l.order[i].opcode, l.order[i].arg)
    ensures Prepended(l, pilr.View(), f)
    ensures forall i :: 0 <= i < |f| ==> f[i] in pilr.View().code && pilr.View().code[f[i]] == Instr(f[i].opcode, f[i].arg)
  {
    hide Distinct;
    forall i | 0 <= i < |f| ensures f[i] in pilr.nodes { assert pilr.nodes[i] == f[i]; }
    forall n | n in l.order ensures pilr.View().code[n] == l.code[n] {
      var i := Pos(l.order, n);
      assert pilr.nodes[|f| + i] == n;
    }
  }

  lemma ViewEnter(l: Listing<ILInstr>, pilr: ILRewriter, f: seq<ILInstr>, probe: ProbeCall, offset: int, methodId: int, probes: map<int, nat>)
    requires WellFormed(l) && l.end == pilr.head && pilr.nodes == f + l.order && pilr.clauses == l.clauses
    requires Distinct(pilr.nodes) && pilr.head !in pilr.nodes
    requires forall i :: 0 <= i < |l.order| ==> l.code[l.order[i]] == Instr(l.order[i].opcode, l.order[i].arg)
    requires HoldEnter(f, probe, offset, methodId) && probe.addr in probes && probes[probe.addr] == 3
    ensures Prepended(l, pilr.View(), f) && IsEnterProbe(probes, pilr.View().code, f)
    ensures EnterEvents(probes, pilr.View().code, f) == [Event(probe.addr, [offset, methodId, 0])]
  {
    hide Prepended, Distinct, ILRewriter.View;
    ViewPrepended(l, pilr, f);
  }

  /** Puts the probe that reports the start of the method in front of everything. */
  method AddEnterProbe(pilr: ILRewriter, probe: ProbeCall, methodId: int, ghost probes: map<int, nat>) returns (ghost f: seq<ILInstr>)
    requires pilr.Valid() && probe.addr in probes && probes[probe.addr] == 3
    modifies pilr`nInstrs, pilr`maxStack, pilr`nodes, pilr.head`next, pilr.At(1)`prev
    ensures pilr.Valid() && Prepended(old(pilr.View()), pilr.View(), f) && IsEnterProbe(probes, pilr.View().code, f)
    ensures EnterEvents(probes, pilr.View().code, f) == [Event(probe.addr, [old(pilr.At(1).offset), methodId, 0])]
    ensures pilr.maxStack == old(pilr.maxStack) + 5
    ensures pilr.nodes == f + old(pilr.nodes) && forall n :: n in f ==> fresh(n)
  {
    hide Distinct, Chained, ILRewriter.Linked, ILRewriter.View, Prepended, IsEnterProbe, HoldEnter;
    ghost var l := pilr.View();
    ViewNow(pilr);
    f := PlaceEnter(pilr, probe, methodId);
    NodesDistinct(pilr);
    ViewEnter(l, pilr, f, probe, old(pilr.At(1).offset), methodId, probes);
  }

  /** Moves a `tail.` prefix to a new node behind its old one. */
  method MoveTail(pilr: ILRewriter, instr: ILInstr, ghost p: nat) returns (tail: ILInstr)
    requires pilr.Valid() && p < |pilr.nodes| && instr == pilr.nodes[p]
    requires instr.opcode == CEE_TAILCALL && instr.arg == Bits(0)
    requires forall i :: 0 <= i < |pilr.clauses| ==> pilr.clauses[i].handlerEnd != instr
    modifies pilr`nInstrs, pilr`maxStack, pilr`nodes, instr`next, instr`opcode, pilr.At(p + 2)`prev
    ensures pilr.Valid() && TailMoved(old(pilr.View()), pilr.View(), instr, tail)
    ensures fresh(tail) && tail.opcode == CEE_TAILCALL
    ensures pilr.nodes == old(pilr.nodes)[..p + 1] + [tail] + old(pilr.nodes)[p + 1..]
    ensures pilr.maxStack == old(pilr.maxStack)
  {
    hide Spliced, Distinct, Chained, ILRewriter.View;
    ghost var l := pilr.View();
    ViewNow(pilr);
    OthersDiffer(pilr.nodes, p);
    tail := pilr.NewILInstr();
    tail.opcode := CEE_TAILCALL;
    instr.opcode := CEE_NOP;
    pilr.InsertAfter(instr, tail, p + 1);
    NodesDistinct(pilr);
    assert NowSpliced(l, pilr, p, [tail]);
    ViewTail(l, pilr, p, tail);
  }

  lemma ViewTail(l: Listing<ILInstr>, pilr: ILRewriter, p: nat, tail: ILInstr)
    requires NowSpliced(l, pilr, p, [tail]) && l.clauses == pilr.clauses
    requires forall i :: 0 <= i < |l.clauses| ==> l.clauses[i].handlerEnd != l.order[p]
    requires l.order[p].opcode == CEE_NOP && l.code[l.order[p]] == Instr(tail.opcode, tail.arg)
    ensures TailMoved(l, pilr.View(), l.order[p], tail)
  {
    hide Spliced, NowSpliced, Distinct;
    ViewSpliced(l, pilr, p, [tail]);
    assert [tail][0] in pilr.nodes;
  }
}
