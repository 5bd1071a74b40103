/** The first pass of the rewriter: finding the instructions that end a basic block. */
module Scanning {
  import opened Opcodes
  import opened Listings
  import opened Blocks
  import opened Growth
  import opened Insertion
  import opened MethodBody
  import opened InstructionList
  import opened CoverageProbes
  import opened Planning

  /** Every instruction knows its original offset, except around tail calls that have been passed: there the landing
      `nop` has the offset of the return and the prefix that of the call. */
  ghost predicate Offsets(l0: Listing<ILInstr>, bs: seq<Block<ILInstr>>, i: nat)
    requires ValidBody(l0) && ScanShape(l0, bs, i)
    reads l0.order`offset, (set k: nat | k < |bs| :: bs[k].carrier)`offset
  {
    forall k :: 0 <= k < |bs| ==> OffsetsOf(l0, bs, i, k)
  }

  ghost predicate OffsetsOf(l0: Listing<ILInstr>, bs: seq<Block<ILInstr>>, i: nat, k: nat)
    requires ValidBody(l0) && ScanShape(l0, bs, i) && k < |bs|
    reads l0.order`offset, (set k: nat | k < |bs| :: bs[k].carrier)`offset
  {
    if k < i && OpAt(l0, k) == CEE_TAILCALL then
      && k + 2 <= |l0.order|
      && l0.order[k].offset == OffsetAt(l0, k + 2) && bs[k].carrier.offset == OffsetAt(l0, k + 1)
    else l0.order[k].offset == OffsetAt(l0, k)
  }

  /** The scan has passed the first `i` instructions of the body `l0`. */
  ghost predicate Passed(pilr: ILRewriter, l0: Listing<ILInstr>, probes: map<int, nat>, bs: seq<Block<ILInstr>>, i: nat)
    reads pilr, pilr.head, pilr.nodes, l0.order, set k: nat | k < |bs| :: bs[k].carrier
  {
    && pilr.Valid() && ValidBody(l0) && i <= |l0.order| == |bs| && ScanShape(l0, bs, i)
    && Instrumented(probes, l0, pilr.View(), [], bs) && ClausesInside(pilr.View())
    && pilr.clauses == l0.clauses && pilr.head == l0.end && pilr.head.opcode == -1
    && Offsets(l0, bs, i)
  }

  /** The last node of block `k`. */
  function Last(bs: seq<Block<ILInstr>>, k: nat): ILInstr
    requires k < |bs|
  {
    bs[k].Nodes()[|bs[k].Nodes()| - 1]
  }

  lemma NodesAre(pilr: ILRewriter, l0: Listing<ILInstr>, probes: map<int, nat>, bs: seq<Block<ILInstr>>)
    requires Instrumented(probes, l0, pilr.View(), [], bs)
    ensures pilr.nodes == Flatten(bs)
  {
    hide GoodBlock;
    assert [] + Flatten(bs) == Flatten(bs);
  }

  lemma Neighbours(pilr: ILRewriter, j: nat)
    requires pilr.Linked() && j < |pilr.nodes|
    ensures pilr.nodes[j].prev == if j == 0 then pilr.head else pilr.nodes[j - 1]
    ensures pilr.nodes[j].next == if j + 1 == |pilr.nodes| then pilr.head else pilr.nodes[j + 1]
  {
    hide Distinct;
    var ring := pilr.Ring();
    assert ring[j + 1] == pilr.nodes[j];
    assert ring[j + 1].prev == ring[j] && ring[j + 1].next == ring[j + 2];
  }

  /** The first and the last node of a block. */
  lemma Ends(bs: seq<Block<ILInstr>>, k: nat)
    requires k < |bs|
    ensures var s, e := Start(bs, k), Start(bs, k + 1);
            s < e <= |Flatten(bs)| && Flatten(bs)[s] == bs[k].Home() && Flatten(bs)[e - 1] == Last(bs, k)
  {
    hide Flatten, Start;
    BlockAt(bs, k);
    NodeAt([], bs, k, 0);
    NodeAt([], bs, k, |bs[k].Nodes()| - 1);
    assert [] + Flatten(bs) == Flatten(bs);
  }

  lemma FullEnd(bs: seq<Block<ILInstr>>)
    ensures Start(bs, |bs|) == |Flatten(bs)|
  {
  }

  /** The neighbours of a block in the linked list. */
  lemma Links(pilr: ILRewriter, l0: Listing<ILInstr>, probes: map<int, nat>, bs: seq<Block<ILInstr>>, k: nat)
    requires pilr.Valid() && Instrumented(probes, l0, pilr.View(), [], bs) && k < |bs|
    ensures Start(bs, k) < |pilr.nodes| && pilr.nodes[Start(bs, k)] == l0.order[k]
    ensures l0.order[k].prev == if k == 0 then pilr.head else Last(bs, k - 1)
    ensures Last(bs, k).next == if k + 1 == |bs| then pilr.head else l0.order[k + 1]
  {
    hide Flatten, Start, Instrumented, Last, ILRewriter.Linked, ILRewriter.View;
    NodesAre(pilr, l0, probes, bs);
    HomeAt(l0, pilr.View(), probes, bs, k);
    Ends(bs, k);
    FirstStart(bs);
    FullEnd(bs);
    Neighbours(pilr, Start(bs, k));
    Neighbours(pilr, Start(bs, k + 1) - 1);
    if k > 0 { Ends(bs, k - 1); StartPositive(bs, k); }
    if k + 1 < |bs| {
      HomeAt(l0, pilr.View(), probes, bs, k + 1);
      Ends(bs, k + 1);
    }
  }

  lemma StartPositive(bs: seq<Block<ILInstr>>, k: nat)
    requires 0 < k < |bs|
    ensures Start(bs, k) > 0
  {
  }

  lemma FirstStart(bs: seq<Block<ILInstr>>)
    ensures Start(bs, 0) == 0
  {
  }

  lemma HomeAt(l0: Listing<ILInstr>, l: Listing<ILInstr>, probes: map<int, nat>, bs: seq<Block<ILInstr>>, k: nat)
    requires Instrumented(probes, l0, l, [], bs) && k < |bs|
    ensures |bs| == |l0.order| && bs[k].Home() == l0.order[k]
    ensures bs[k].carrier in l.code && l.code[bs[k].carrier] == l0.code[l0.order[k]]
  {
    hide Flatten, Start, Neutral, RegionsAt;
    assert GoodBlock(probes, l0, l, 0, bs, k);
  }

  /** An instruction the scan has not passed yet is still in place. */
  lemma Pristine(pilr: ILRewriter, l0: Listing<ILInstr>, probes: map<int, nat>, bs: seq<Block<ILInstr>>, i: nat, k: nat)
    requires Passed(pilr, l0, probes, bs, i) && i <= k < |bs|
    ensures l0.order[k] in pilr.nodes && Instr(l0.order[k].opcode, l0.order[k].arg) == l0.code[l0.order[k]]
    ensures l0.order[k].opcode == OpAt(l0, k) && l0.order[k].offset == OffsetAt(l0, k)
    ensures Start(bs, k) < |pilr.nodes| && pilr.nodes[Start(bs, k)] == l0.order[k]
    ensures l0.order[k].next == if k + 1 == |bs| then pilr.head else l0.order[k + 1]
    ensures k > 0 ==> l0.order[k].prev == Last(bs, k - 1)
    ensures k == 0 ==> l0.order[k].prev == pilr.head
  {
    hide Flatten, Start, GoodBlock, ValidAt, ValidClause, ClausesInside, ILRewriter.Linked, OffsetAt;
    Links(pilr, l0, probes, bs, k);
    HomeAt(l0, pilr.View(), probes, bs, k);
    assert OffsetsOf(l0, bs, i, k);
  }

  /** What lies in front of an instruction that control may enter. */
  lemma Before(pilr: ILRewriter, l0: Listing<ILInstr>, probes: map<int, nat>, bs: seq<Block<ILInstr>>, i: nat, t: nat)
    requires Passed(pilr, l0, probes, bs, i) && Enterable(l0, t)
    ensures l0.order[t].prev == if t == 0 then pilr.head else l0.order[t - 1]
  {
    hide Flatten, Start, GoodBlock, ValidAt, ValidClause, ClausesInside, ILRewriter.Linked, Offsets;
    Links(pilr, l0, probes, bs, t);
    if t > 0 { assert bs[t - 1] == Block([], l0.order[t - 1], []); }
  }

  /** The fall-through into the target of the instruction at `q` ends a block. */
  lemma OneTarget(pilr: ILRewriter, parent: ILInstr, s: Probes, l0: Listing<ILInstr>, probes: map<int, nat>,
                  bs: seq<Block<ILInstr>>, i: nat, q: nat)
    returns (x: int)
    requires Passed(pilr, l0, probes, bs, i) && i <= q < |l0.order| && HasTarget(OpAt(l0, q))
    ensures l0.order[q].arg.Target?
    ensures -1 <= x < |l0.order| && Refers(l0, q, x + 1)
    ensures l0.order[q].arg.node.prev != null
    ensures l0.order[q].arg.node.prev == if x == -1 then pilr.head else l0.order[x]
    ensures BehindAt(l0, s, ProbeInsertion(l0.order[q].arg.node.prev, parent, s.coverage, false), x)
    ensures l0.order[q].next == if q + 1 == |l0.order| then pilr.head else l0.order[q + 1]
  {
    hide Instrumented, ScanShape, Offsets, ClausesInside, ILRewriter.Linked, ILRewriter.View, Enterable;
    Pristine(pilr, l0, probes, bs, i, q);
    assert ValidAt(l0, q);
    var t: int := Pos(l0.order, l0.order[q].arg.node);
    Before(pilr, l0, probes, bs, i, t);
    x := t - 1;
  }

  /** The targets of a branch. */
  method BranchTargets(pilr: ILRewriter, instr: ILInstr, s: Probes, ghost l0: Listing<ILInstr>, ghost probes: map<int, nat>,
                       ghost bs: seq<Block<ILInstr>>, ghost i: nat)
    returns (targets: seq<ProbeInsertion>, ghost behind: seq<int>)
    requires Passed(pilr, l0, probes, bs, i) && i < |l0.order| && instr == l0.order[i] && OpcodeIsBranch(instr.opcode)
    ensures TargetStep(l0, s, targets, behind, i) && Passed(pilr, l0, probes, bs, i)
  {
    hide Passed, BehindAt, Refers, Enterable;
    IsBody(pilr, l0, probes, bs, i);
    Pristine(pilr, l0, probes, bs, i, i);
    if instr.opcode == CEE_SWITCH {
      targets, behind := SwitchTargets(pilr, instr, s, l0, probes, bs, i);
    } else {
      ghost var x := OneTarget(pilr, instr, s, l0, probes, bs, i, i);
      targets, behind := [ProbeInsertion(instr.arg.node.prev, instr, s.coverage, false)], [x];
      SingleTarget(l0, x, i);
    }
  }

  lemma SingleTarget(l0: Listing<ILInstr>, x: int, i: nat)
    requires WellFormed(l0) && x >= -1 && Refers(l0, i, x + 1)
    ensures TargetsPlanned(l0, [x], i)
  {
    forall t: nat | Refers(l0, i, t) ensures t - 1 in [x] {
      PosUnique(l0.order, t);
      PosUnique(l0.order, x + 1);
      assert [x][0] == t - 1;
    }
  }

  lemma IsBody(pilr: ILRewriter, l0: Listing<ILInstr>, probes: map<int, nat>, bs: seq<Block<ILInstr>>, i: nat)
    requires Passed(pilr, l0, probes, bs, i)
    ensures ValidBody(l0) && |bs| == |l0.order| && pilr.Valid()
    ensures forall p :: 0 <= p < |l0.order| ==> ValidAt(l0, p)
  {
  }

  /** The targets of a `switch`, arm by arm. */
  method SwitchTargets(pilr: ILRewriter, instr: ILInstr, s: Probes, ghost l0: Listing<ILInstr>, ghost probes: map<int, nat>,
                       ghost bs: seq<Block<ILInstr>>, ghost i: nat)
    returns (targets: seq<ProbeInsertion>, ghost behind: seq<int>)
    requires Passed(pilr, l0, probes, bs, i) && i < |l0.order| && instr == l0.order[i] && instr.opcode == CEE_SWITCH
    ensures TargetStep(l0, s, targets, behind, i) && Passed(pilr, l0, probes, bs, i)
  {
    hide Passed, BehindAt, Refers, Enterable, TargetsPlanned;
    IsBody(pilr, l0, probes, bs, i);
    Pristine(pilr, l0, probes, bs, i, i);
    assert ValidAt(l0, i);
    targets, behind := [], [];
    var arm, n := instr.next, instr.arg.value;
    assert IsSwitch(l0, i, n);
    NoTarget(l0, i, []);
    for j := 0 to n
      invariant Passed(pilr, l0, probes, bs, i)
      invariant arm == if i + 1 + j == |l0.order| then pilr.head else l0.order[i + 1 + j]
      invariant |targets| == |behind|
      invariant forall h :: 0 <= h < |targets| ==> BehindAt(l0, s, targets[h], behind[h])
      invariant forall q: nat :: i <= q <= i + j ==> TargetsPlanned(l0, behind, q)
    {
      assert l0.code[l0.order[i + 1 + j]].op == CEE_SWITCH_ARG;
      ghost var x := OneTarget(pilr, instr, s, l0, probes, bs, i, i + 1 + j);
      var ins := ProbeInsertion(arm.arg.node.prev, instr, s.coverage, false);
      MoreTargets(l0, s, targets, behind, ins, x, i + 1 + j, i);
      targets, behind := targets + [ins], behind + [x];
      arm := arm.next;
    }
  }

  lemma NoTarget(l0: Listing<ILInstr>, i: nat, behind: seq<int>)
    requires WellFormed(l0) && i < |l0.order| && OpAt(l0, i) == CEE_SWITCH
    ensures TargetsPlanned(l0, behind, i)
  {
  }

  lemma MoreTargets(l0: Listing<ILInstr>, s: Probes, targets: seq<ProbeInsertion>, behind: seq<int>, ins: ProbeInsertion, x: int, q: nat, i: nat)
    requires WellFormed(l0) && |targets| == |behind| && i < q
    requires forall h :: 0 <= h < |targets| ==> BehindAt(l0, s, targets[h], behind[h])
    requires BehindAt(l0, s, ins, x) && Refers(l0, q, x + 1)
    requires forall p: nat :: i <= p < q ==> TargetsPlanned(l0, behind, p)
    ensures forall h :: 0 <= h < |targets + [ins]| ==> BehindAt(l0, s, (targets + [ins])[h], (behind + [x])[h])
    ensures forall p: nat :: i <= p <= q ==> TargetsPlanned(l0, behind + [x], p)
  {
    hide Enterable;
    forall p: nat | i <= p <= q ensures TargetsPlanned(l0, behind + [x], p) {
      if p == q {
        SingleTarget(l0, x, q);
      }
      forall t: nat | Refers(l0, p, t) ensures t - 1 in behind + [x] {
        if p < q { assert TargetsPlanned(l0, behind, p); assert t - 1 in behind; }
        else { assert t - 1 in [x]; }
      }
    }
  }

  /** Passing an instruction that is not a `tail.` prefix leaves everything as it is. */
  lemma PassOne(pilr: ILRewriter, l0: Listing<ILInstr>, probes: map<int, nat>, bs: seq<Block<ILInstr>>, i: nat)
    requires Passed(pilr, l0, probes, bs, i) && i < |l0.order| && OpAt(l0, i) != CEE_TAILCALL
    ensures Passed(pilr, l0, probes, bs, i + 1)
    ensures Last(bs, i) == l0.order[i] && l0.order[i].next == if i + 1 == |bs| then pilr.head else l0.order[i + 1]
  {
    hide Instrumented, ClausesInside, ILRewriter.Linked, ILRewriter.View, ValidAt, ValidClause;
    var i' := i + 1;
    forall k | 0 <= k < |bs| ensures OffsetsOf(l0, bs, i', k) { assert OffsetsOf(l0, bs, i, k); }
    Pristine(pilr, l0, probes, bs, i, i);
  }

  /** The tail call at `i` in the original code. */
  lemma TailFacts(l0: Listing<ILInstr>, i: nat)
    requires ValidBody(l0) && i < |l0.order| && OpAt(l0, i) == CEE_TAILCALL
    ensures i + 2 < |l0.order| && l0.code[l0.order[i]] == Instr(CEE_TAILCALL, Bits(0)) && MayPrecede(l0, i)
    ensures IsCall(OpAt(l0, i + 1)) && OpAt(l0, i + 2) == CEE_RET
    ensures forall c :: 0 <= c < |l0.clauses| ==> l0.clauses[c].handlerEnd != l0.order[i]
  {
    hide Distinct;
    assert ValidAt(l0, i);
    forall c | 0 <= c < |l0.clauses| ensures l0.clauses[c].handlerEnd != l0.order[i] {
      assert ValidClause(l0, l0.clauses[c]);
    }
  }

  /** The blocks once the prefix at `i` has moved. */
  lemma TailGrows(pilr: ILRewriter, l0: Listing<ILInstr>, l: Listing<ILInstr>, probes: map<int, nat>, bs: seq<Block<ILInstr>>, i: nat, tail: ILInstr)
    requires ValidBody(l0) && i < |l0.order| && OpAt(l0, i) == CEE_TAILCALL && ScanShape(l0, bs, i)
    requires Instrumented(probes, l0, l, [], bs) && ClausesInside(l) && TailMoved(l, pilr.View(), l0.order[i], tail)
    ensures var bs' := bs[i := Block([l0.order[i]], tail, [])];
            Instrumented(probes, l0, pilr.View(), [], bs') && ClausesInside(pilr.View()) && ScanShape(l0, bs', i + 1)
  {
    hide Instrumented, ClausesInside, ILRewriter.View, TailMoved, ValidAt, ValidClause;
    TailFacts(l0, i);
    assert bs[i] == Block([], l0.order[i], []);
    var b := TailBlock(probes, l0, l, pilr.View(), [], bs, i, tail);
    assert [] + [l0.order[i]] == [l0.order[i]];
    GrowBlock(probes, l0, l, pilr.View(), [], bs, i, 0, [tail], b);
  }

  /** Moves the `tail.` prefix at `i`, which gives both its old and its new node a probe of their own. */
  method SplitTail(pilr: ILRewriter, instr: ILInstr, ghost l0: Listing<ILInstr>, ghost probes: map<int, nat>,
                   ghost bs: seq<Block<ILInstr>>, ghost i: nat)
    returns (tail: ILInstr, ghost bs': seq<Block<ILInstr>>)
    requires Passed(pilr, l0, probes, bs, i) && i < |l0.order| && instr == l0.order[i] && OpAt(l0, i) == CEE_TAILCALL
    modifies pilr`nInstrs, pilr`maxStack, pilr`nodes, pilr.head`prev, pilr.nodes`next, pilr.nodes`prev, instr`opcode
    ensures bs' == bs[i := Block([instr], tail, [])] && fresh(tail)
    ensures pilr.Valid() && ScanShape(l0, bs', i + 1) && pilr.clauses == l0.clauses
    ensures Instrumented(probes, l0, pilr.View(), [], bs') && ClausesInside(pilr.View())
    ensures pilr.nodes == old(pilr.nodes)[..Start(bs, i) + 1] + [tail] + old(pilr.nodes)[Start(bs, i) + 1..]
    ensures pilr.maxStack == old(pilr.maxStack)
  {
    hide Instrumented, ClausesInside, ILRewriter.Linked, TailMoved, ValidAt, ValidClause, ScanShape, Offsets;
    Pristine(pilr, l0, probes, bs, i, i);
    TailFacts(l0, i);
    ghost var l := pilr.View();
    tail := MoveTail(pilr, instr, Start(bs, i));
    TailGrows(pilr, l0, l, probes, bs, i, tail);
    bs' := bs[i := Block([instr], tail, [])];
  }

  /** The nodes of other blocks are not the prefix at `i`. */
  lemma OthersApart(l0: Listing<ILInstr>, l: Listing<ILInstr>, probes: map<int, nat>, bs: seq<Block<ILInstr>>, i: nat)
    requires Instrumented(probes, l0, l, [], bs) && i < |bs|
    ensures forall k :: 0 <= k < |bs| && k != i ==> l0.order[k] != l0.order[i] && bs[k].carrier != l0.order[i]
    ensures forall k :: 0 <= k < |bs| ==> bs[k].carrier in l.order && l0.order[k] in l.order
  {
    hide Flatten, Start, GoodBlock, Distinct;
    HomeAt(l0, l, probes, bs, i);
    forall k | 0 <= k < |bs|
      ensures k != i ==> l0.order[k] != l0.order[i] && bs[k].carrier != l0.order[i]
      ensures bs[k].carrier in l.order && l0.order[k] in l.order
    {
      HomeAt(l0, l, probes, bs, k);
      InBlock(probes, l0, l, [], bs, k);
      assert bs[k].carrier in bs[k].Nodes() && bs[k].Nodes()[0] in bs[k].Nodes();
      if k != i { OtherNodes([], bs, k, i, 0); }
    }
  }

  /** What follows the prefix once it has moved. */
  lemma TailLinks(pilr: ILRewriter, l0: Listing<ILInstr>, probes: map<int, nat>, bs: seq<Block<ILInstr>>, i: nat, tail: ILInstr)
    requires pilr.Valid() && Instrumented(probes, l0, pilr.View(), [], bs) && i + 2 < |bs| == |l0.order|
    requires bs[i] == Block([l0.order[i]], tail, []) && bs[i + 1] == Block([], l0.order[i + 1], [])
    ensures tail.next == l0.order[i + 1] && l0.order[i + 1].next == l0.order[i + 2]
  {
    hide Instrumented, ILRewriter.Linked, ILRewriter.View;
    Links(pilr, l0, probes, bs, i);
    Links(pilr, l0, probes, bs, i + 1);
  }

  /** The old node of the prefix takes the offset of the return, the new one that of the call. */
  method ShiftOffsets(instr: ILInstr, tail: ILInstr, ghost l0: Listing<ILInstr>, ghost bs: seq<Block<ILInstr>>, ghost i: nat)
    requires ValidBody(l0) && i + 2 < |l0.order| && instr == l0.order[i] && OpAt(l0, i) == CEE_TAILCALL && ScanShape(l0, bs, i)
    requires ScanShape(l0, bs[i := Block([instr], tail, [])], i + 1)
    requires tail.next == l0.order[i + 1] && l0.order[i + 1].next == l0.order[i + 2]
    requires forall k :: 0 <= k < |bs| ==> OffsetsOf(l0, bs, i, k) && tail != l0.order[k] && tail != bs[k].carrier
    requires forall k :: 0 <= k < |bs| && k != i ==> instr != l0.order[k] && instr != bs[k].carrier
    modifies instr`offset, tail`offset
    ensures Offsets(l0, bs[i := Block([instr], tail, [])], i + 1)
  {
    hide ValidAt, ValidClause, OffsetAt, Distinct;
    assert OffsetsOf(l0, bs, i, i + 1) && OffsetsOf(l0, bs, i, i + 2);
    tail.offset := tail.next.offset;
    instr.offset := tail.next.next.offset;
    ghost var bs', i' := bs[i := Block([instr], tail, [])], i + 1;
    forall k | 0 <= k < |bs'| ensures OffsetsOf(l0, bs', i', k) {
      if k != i { assert old(OffsetsOf(l0, bs, i, k)); }
    }
  }

  /** Passes a `tail.` prefix. */
  method PassTail(pilr: ILRewriter, instr: ILInstr, s: Probes, ghost l0: Listing<ILInstr>, ghost probes: map<int, nat>,
                  ghost bs: seq<Block<ILInstr>>, ghost i: nat)
    returns (tail: ILInstr, ghost bs': seq<Block<ILInstr>>)
    requires Passed(pilr, l0, probes, bs, i) && i < |l0.order| && instr == l0.order[i] && OpAt(l0, i) == CEE_TAILCALL
    modifies pilr, pilr.head, set n | n in pilr.nodes
    ensures bs' == bs[i := Block([instr], tail, [])] && Passed(pilr, l0, probes, bs', i + 1)
    ensures i + 2 < |l0.order| && tail.next == l0.order[i + 1]
    ensures forall n :: n in pilr.nodes ==> n in old(pilr.nodes) || fresh(n)
    ensures pilr.maxStack == old(pilr.maxStack)
  {
    hide Instrumented, ClausesInside, ILRewriter.Linked, ILRewriter.View, ValidAt, ValidClause, OffsetAt, Distinct, OffsetsOf, Start, Flatten;
    TailFacts(l0, i);
    Pristine(pilr, l0, probes, bs, i, i);
    assert bs[i + 1] == Block([], l0.order[i + 1], []);
    OthersApart(l0, pilr.View(), probes, bs, i);
    ViewOrder(pilr);
    tail, bs' := SplitTail(pilr, instr, l0, probes, bs, i);
    TailLinks(pilr, l0, probes, bs', i, tail);
    ShiftOffsets(instr, tail, l0, bs, i);
  }

  lemma ViewOrder(pilr: ILRewriter)
    ensures pilr.View().order == pilr.nodes
  {
  }

  lemma TailFlag(l0: Listing<ILInstr>, i: nat)
    requires ValidBody(l0) && i < |l0.order|
    ensures OpAt(l0, i - 1) == CEE_TAILCALL ==> IsCall(OpAt(l0, i))
    ensures OpAt(l0, i - 2) == CEE_TAILCALL ==> OpAt(l0, i) == CEE_RET
    ensures AfterTail(l0, i + 1) == (OpAt(l0, i) == CEE_TAILCALL || (AfterTail(l0, i) && OpAt(l0, i) != CEE_RET))
  {
    hide Distinct;
    if i >= 1 { assert ValidAt(l0, i - 1); }
    if i >= 2 { assert ValidAt(l0, i - 2); }
  }

  /** The opcode of the node in front of the instruction at `i`. */
  lemma PrevOpcode(pilr: ILRewriter, l0: Listing<ILInstr>, probes: map<int, nat>, bs: seq<Block<ILInstr>>, i: nat)
    requires Passed(pilr, l0, probes, bs, i) && i < |l0.order| && OpAt(l0, i - 1) != CEE_TAILCALL
    ensures l0.order[i].prev == if i == 0 then pilr.head else l0.order[i - 1]
    ensures l0.order[i].prev.opcode == OpAt(l0, i - 1)
  {
    hide Flatten, Start, GoodBlock, ValidAt, ValidClause, ClausesInside, ILRewriter.Linked, Offsets;
    Pristine(pilr, l0, probes, bs, i, i);
    if i > 0 {
      assert bs[i - 1] == Block([], l0.order[i - 1], []);
      HomeAt(l0, pilr.View(), probes, bs, i - 1);
    }
  }

  /** The probe for a `stsfld` goes in front of its prefix, if it has one. */
  lemma StsfldPlan(pilr: ILRewriter, s: Probes, leave: ProbeCall, l0: Listing<ILInstr>, probes: map<int, nat>, bs: seq<Block<ILInstr>>, i: nat)
    requires Passed(pilr, l0, probes, bs, i) && i < |l0.order| && OpAt(l0, i) == CEE_STSFLD && Known(probes, s)
    ensures l0.order[i].prev != null
    ensures var prev := l0.order[i].prev;
            var target := if IsPrefix(prev.opcode) then prev else l0.order[i];
            PlanStep(l0, probes, s, leave, bs, [ProbeInsertion(target, null, s.stsfld, true)], [Site(l0, i)], i)
  {
    hide Instrumented, ClausesInside, ILRewriter.Linked, ILRewriter.View, PlanStep, Offsets;
    IsBody(pilr, l0, probes, bs, i);
    TailFlag(l0, i);
    PrevOpcode(pilr, l0, probes, bs, i);
    assert ValidAt(l0, i);
    var prev := l0.order[i].prev;
    var target := if IsPrefix(prev.opcode) then prev else l0.order[i];
    PlanSingle(l0, probes, s, leave, bs, ProbeInsertion(target, null, s.stsfld, true), Site(l0, i), i);
  }

  /** The probe for any other instruction that ends a block. */
  lemma PlainPlan(s: Probes, leave: ProbeCall, l0: Listing<ILInstr>, probes: map<int, nat>, bs: seq<Block<ILInstr>>, i: nat)
    requires ValidBody(l0) && i < |l0.order| == |bs| && Known(probes, s) && TwoArguments(probes, leave)
    requires OpAt(l0, i) != CEE_STSFLD && OpAt(l0, i) != CEE_TAILCALL && DemandAt(l0, s, leave, i).Probe?
    ensures var d := DemandAt(l0, s, leave, i);
            PlanStep(l0, probes, s, leave, bs, [ProbeInsertion(l0.order[i], null, d.probe, d.before)], [i], i)
  {
    hide PlanStep;
    assert ValidAt(l0, i);
    var d := DemandAt(l0, s, leave, i);
    PlanSingle(l0, probes, s, leave, bs, ProbeInsertion(l0.order[i], null, d.probe, d.before), i, i);
  }

  lemma PlanTail(l0: Listing<ILInstr>, probes: map<int, nat>, s: Probes, leave: ProbeCall, bs: seq<Block<ILInstr>>, tail: ILInstr, i: nat)
    requires ValidBody(l0) && i < |l0.order| == |bs| && OpAt(l0, i) == CEE_TAILCALL && bs[i].carrier == tail && Known(probes, s)
    ensures PlanStep(l0, probes, s, leave, bs,
                     [ProbeInsertion(tail, null, s.tailcall, true), ProbeInsertion(l0.order[i], null, s.coverage, true)], [i, i], i)
  {
    hide Distinct;
    TailFacts(l0, i);
    var a, b := ProbeInsertion(tail, null, s.tailcall, true), ProbeInsertion(l0.order[i], null, s.coverage, true);
    assert IsFor([a, b][0], tail, s.tailcall, true) && IsFor([a, b][1], l0.order[i], s.coverage, true);
    assert [i, i][0] == i && [i, i][1] == i;
  }

  /** What the instruction at `i` calls for: probes for the end of its block, and for its targets. */
  method ScanInstr(pilr: ILRewriter, instr: ILInstr, s: Probes, leave: ProbeCall, isTailCall: bool,
                   ghost l0: Listing<ILInstr>, ghost probes: map<int, nat>, ghost bs: seq<Block<ILInstr>>, ghost i: nat)
    returns (more: seq<ProbeInsertion>, targets: seq<ProbeInsertion>, last: ILInstr, tailFlag: bool,
             ghost at: seq<nat>, ghost behind: seq<int>, ghost bs': seq<Block<ILInstr>>)
    requires Passed(pilr, l0, probes, bs, i) && i < |l0.order| && instr == l0.order[i]
    requires Known(probes, s) && TwoArguments(probes, leave) && isTailCall == AfterTail(l0, i)
    modifies pilr, pilr.head, set n | n in pilr.nodes
    ensures Passed(pilr, l0, probes, bs', i + 1) && (forall k :: 0 <= k < |bs| && k != i ==> bs'[k] == bs[k])
    ensures PlanStep(l0, probes, s, leave, bs', more, at, i) && TargetStep(l0, s, targets, behind, i)
    ensures last.next == if i + 1 == |l0.order| then pilr.head else l0.order[i + 1]
    ensures tailFlag == AfterTail(l0, i + 1)
    ensures forall n :: n in pilr.nodes ==> n in old(pilr.nodes) || fresh(n)
    ensures pilr.maxStack == old(pilr.maxStack)
  {
    hide Passed, PlanStep, BehindAt, AfterTail;
    IsBody(pilr, l0, probes, bs, i);
    Pristine(pilr, l0, probes, bs, i, i);
    TailFlag(l0, i);
    var op := instr.opcode;
    more, targets, last, tailFlag, at, behind, bs' := [], [], instr, isTailCall, [], [], bs;
    NoTargets(l0, s, i);
    if op == CEE_TAILCALL {
      last, bs' := PassTail(pilr, instr, s, l0, probes, bs, i);
      tailFlag := true;
      more := [ProbeInsertion(last, null, s.tailcall, true), ProbeInsertion(instr, null, s.coverage, true)];
      at := [i, i];
      PlanTail(l0, probes, s, leave, bs', last, i);
    } else {
      DemandCases(l0, s, leave, i);
      if OpcodeIsBranch(op) {
        targets, behind := BranchTargets(pilr, instr, s, l0, probes, bs, i);
        more, at := [ProbeInsertion(instr, null, s.branch, true)], [i];
      } else if op == CEE_STSFLD {
        StsfldPlan(pilr, s, leave, l0, probes, bs, i);
        var target := if IsPrefix(instr.prev.opcode) then instr.prev else instr;
        more, at := [ProbeInsertion(target, null, s.stsfld, true)], [Site(l0, i)];
      } else if IsCall(op) && !isTailCall {
        more, at := [ProbeInsertion(instr, null, s.call, false)], [i];
      } else if op == CEE_RET && isTailCall {
        tailFlag := false;
      } else if op == CEE_RET {
        more, at := [ProbeInsertion(instr, null, leave, true)], [i];
      } else if op == CEE_ENDFINALLY || op == CEE_ENDFILTER {
        more, at := [ProbeInsertion(instr, null, s.coverage, true)], [i];
      } else if op == CEE_THROW || op == CEE_RETHROW {
        more, at := [ProbeInsertion(instr, null, s.throw, true)], [i];
      }
      if DemandAt(l0, s, leave, i).Nothing? {
        PlanNothing(l0, probes, s, leave, bs, i);
      } else if op != CEE_STSFLD {
        PlainPlan(s, leave, l0, probes, bs, i);
      }
      PassOne(pilr, l0, probes, bs, i);
    }
  }

  lemma NoTargets(l0: Listing<ILInstr>, s: Probes, i: nat)
    requires WellFormed(l0) && i < |l0.order|
    ensures !OpcodeIsBranch(OpAt(l0, i)) ==> TargetStep(l0, s, [], [], i)
  {
  }

  lemma DemandCases(l0: Listing<ILInstr>, s: Probes, leave: ProbeCall, i: nat)
    requires ValidBody(l0) && i < |l0.order| && OpAt(l0, i) != CEE_TAILCALL
    ensures var op, d := OpAt(l0, i), DemandAt(l0, s, leave, i);
            if OpcodeIsBranch(op) then d == Probe(s.branch, true)
            else if op == CEE_STSFLD then d == Probe(s.stsfld, true)
            else if IsCall(op) && !AfterTail(l0, i) then d == Probe(s.call, false)
            else if op == CEE_RET && !AfterTail(l0, i) then d == Probe(leave, true)
            else if op == CEE_ENDFINALLY || op == CEE_ENDFILTER then d == Probe(s.coverage, true)
            else if op == CEE_THROW || op == CEE_RETHROW then d == Probe(s.throw, true)
            else d == Nothing
  {
  }

  /** The plan for everything: the probes that end blocks, and the probes for the fall-through into branch targets. */
  ghost predicate Planned(l0: Listing<ILInstr>, probes: map<int, nat>, s: Probes, leave: ProbeCall, bs: seq<Block<ILInstr>>,
                          priority: seq<ProbeInsertion>, at: seq<nat>, targets: seq<ProbeInsertion>, behind: seq<int>)
    requires WellFormed(l0)
  {
    && PlanOk(l0, probes, s, leave, bs, priority, at, |l0.order|)
    && |targets| == |behind|
    && (forall j :: 0 <= j < |targets| ==> BehindAt(l0, s, targets[j], behind[j]))
    && (forall q: nat :: q < |l0.order| ==> TargetsPlanned(l0, behind, q))
  }

  /** All arms passed so far have been planned for together with their `switch`. */
  ghost predicate TargetsSoFar(l0: Listing<ILInstr>, s: Probes, targets: seq<ProbeInsertion>, behind: seq<int>, i: nat, armEnd: nat)
    requires WellFormed(l0)
  {
    && |targets| == |behind|
    && (forall j :: 0 <= j < |targets| ==> BehindAt(l0, s, targets[j], behind[j]))
    && (forall q: nat :: q < i || q < armEnd ==> TargetsPlanned(l0, behind, q))
    && (OpAt(l0, i) == CEE_SWITCH_ARG ==> i < armEnd)
    && OpAt(l0, armEnd) != CEE_SWITCH_ARG
  }

  lemma TargetsExtend(l0: Listing<ILInstr>, s: Probes, targets: seq<ProbeInsertion>, behind: seq<int>,
                      more: seq<ProbeInsertion>, more': seq<int>, i: nat, armEnd: nat) returns (armEnd': nat)
    requires ValidBody(l0) && i < |l0.order| && TargetsSoFar(l0, s, targets, behind, i, armEnd) && TargetStep(l0, s, more, more', i)
    ensures TargetsSoFar(l0, s, targets + more, behind + more', i + 1, armEnd')
  {
    hide BehindAt, Refers;
    assert ValidAt(l0, i);
    if i + 1 < |l0.order| { assert ValidAt(l0, i + 1); }
    var n := l0.code[l0.order[i]].arg;
    armEnd' := if OpAt(l0, i) == CEE_SWITCH then i + 1 + n.value else armEnd;
    forall q: nat | q < i + 1 || q < armEnd' ensures TargetsPlanned(l0, behind + more', q) {
      if q < i || q < armEnd {
        assert TargetsPlanned(l0, behind, q);
      } else {
        assert TargetsPlanned(l0, more', q);
      }
    }
  }

  // ---------- The whole scan ----------

  function Single(n: ILInstr): Block<ILInstr> {
    Block([], n, [])
  }

  function Singles(order: seq<ILInstr>): (bs: seq<Block<ILInstr>>)
    ensures |bs| == |order| && forall k :: 0 <= k < |bs| ==> bs[k] == Single(order[k])
  {
    if order == [] then [] else [Single(order[0])] + Singles(order[1..])
  }

  lemma SinglesCons(order: seq<ILInstr>)
    requires order != []
    ensures Singles(order)[1..] == Singles(order[1..]) && Singles(order)[0].Nodes() == [order[0]]
  {
  }

  lemma {:induction false} SinglesFlat(order: seq<ILInstr>, k: nat)
    requires k <= |order|
    ensures Flatten(Singles(order)) == order && Start(Singles(order), k) == k
    decreases |order|
  {
    if order != [] {
      hide Flatten, Start, Singles;
      var bs := Singles(order);
      SinglesCons(order);
      SinglesFlat(order[1..], if k == 0 then 0 else k - 1);
      FlattenCons(bs, k);
      assert [order[0]] + order[1..] == order;
    }
  }

  /** Before anything is inserted, every instruction is a block of its own. */
  lemma SinglesInstrumented(l0: Listing<ILInstr>, probes: map<int, nat>)
    requires ValidBody(l0)
    ensures Instrumented(probes, l0, l0, [], Singles(l0.order)) && ClausesInside(l0) && ScanShape(l0, Singles(l0.order), 0)
  {
    hide RegionsAt, Flatten, Start, MayPrecede, MayFollow, ValidAt, Distinct, GoodBlock, ClauseInside, IsEnterProbe;
    var bs := Singles(l0.order);
    SinglesFlat(l0.order, 0);
    assert [] + l0.order == l0.order;
    var none: seq<ILInstr> := [];
    forall k | 0 <= k < |bs| ensures GoodBlock(probes, l0, l0, |none|, bs, k) {
      SingleGood(l0, probes, k);
    }
    forall i | 0 <= i < |l0.clauses| ensures ClauseInside(l0, l0.clauses[i]) { ClauseIsInside(l0, i); }
  }

  lemma SingleGood(l0: Listing<ILInstr>, probes: map<int, nat>, k: nat)
    requires WellFormed(l0) && k < |l0.order|
    ensures GoodBlock(probes, l0, l0, 0, Singles(l0.order), k)
  {
    hide RegionsAt, MayPrecede, MayFollow, Singles;
    SinglesFlat(l0.order, k);
  }

  lemma ClauseIsInside(l0: Listing<ILInstr>, i: nat)
    requires ValidBody(l0) && i < |l0.clauses|
    ensures ClauseInside(l0, l0.clauses[i])
  {
    assert ValidClause(l0, l0.clauses[i]);
  }

  /** Nothing has been rewritten yet, and every instruction knows its offset. */
  ghost predicate Imported(pilr: ILRewriter)
    reads pilr, pilr.head, pilr.nodes
  {
    && pilr.Valid() && ValidBody(pilr.View()) && pilr.head.opcode == -1
    && (forall k :: 0 <= k < |pilr.nodes| ==> pilr.nodes[k].offset == OffsetAt(pilr.View(), k))
  }

  lemma StartScan(pilr: ILRewriter, probes: map<int, nat>)
    requires Imported(pilr)
    ensures Passed(pilr, pilr.View(), probes, Singles(pilr.nodes), 0)
  {
    hide ILRewriter.Linked, ValidBody, OffsetAt;
    var l0 := pilr.View();
    SinglesInstrumented(l0, probes);
    forall k | 0 <= k < |l0.order| ensures OffsetsOf(l0, Singles(l0.order), 0, k) { }
  }

  /** Scans the list for the instructions that end a basic block. */
  method Scan(pilr: ILRewriter, s: Probes, leave: ProbeCall, ghost probes: map<int, nat>)
    returns (priority: seq<ProbeInsertion>, targets: seq<ProbeInsertion>,
             ghost at: seq<nat>, ghost behind: seq<int>, ghost bs: seq<Block<ILInstr>>)
    requires Imported(pilr) && Known(probes, s) && TwoArguments(probes, leave)
    modifies pilr, pilr.head, set n | n in pilr.nodes
    ensures ValidBody(old(pilr.View())) && Passed(pilr, old(pilr.View()), probes, bs, |old(pilr.View()).order|)
    ensures Planned(old(pilr.View()), probes, s, leave, bs, priority, at, targets, behind)
    ensures forall n :: n in pilr.nodes ==> n in old(pilr.nodes) || fresh(n)
    ensures pilr.maxStack == old(pilr.maxStack)
  {
    hide Passed, PlanStep, BehindAt, AfterTail, TargetStep, TargetsPlanned, PlannedAt, Applicable, ValidAt, ValidClause, OffsetAt,
         Singles, Known, TwoArguments, ILRewriter.Linked;
    ghost var l0 := pilr.View();
    StartScan(pilr, probes);
    bs := Singles(pilr.nodes);
    IsBody(pilr, l0, probes, bs, 0);
    ScanStarts(l0, probes, s, leave, bs);
    priority, targets, at, behind := [], [], [], [];
    var isTailCall := false;
    ghost var i, armEnd := 0, 0;
    var instr := FirstOf(pilr);
    FirstIs(pilr);
    while instr != pilr.head
      invariant i <= |l0.order| && instr == (if i == |l0.order| then pilr.head else l0.order[i])
      invariant Passed(pilr, l0, probes, bs, i) && |bs| == |l0.order| && pilr.head == l0.end
      invariant isTailCall == AfterTail(l0, i)
      invariant PlanOk(l0, probes, s, leave, bs, priority, at, i)
      invariant TargetsSoFar(l0, s, targets, behind, i, armEnd)
      invariant forall n :: n in pilr.nodes ==> n in old(pilr.nodes) || fresh(n)
      invariant pilr.maxStack == old(pilr.maxStack)
      decreases |l0.order| - i
    {
      var more, moreTargets, last;
      ghost var at', behind', bs';
      more, moreTargets, last, isTailCall, at', behind', bs' := ScanInstr(pilr, instr, s, leave, isTailCall, l0, probes, bs, i);
      PlanStepExtends(l0, probes, s, leave, bs, bs', priority, at, more, at', i);
      armEnd := TargetsExtend(l0, s, targets, behind, moreTargets, behind', i, armEnd);
      IsBody(pilr, l0, probes, bs', i + 1);
      priority, targets, at, behind, bs := priority + more, targets + moreTargets, at + at', behind + behind', bs';
      instr := last.next;
      i := i + 1;
    }
  }

  lemma FirstIs(pilr: ILRewriter)
    ensures pilr.At(1) == if pilr.nodes == [] then pilr.head else pilr.nodes[0]
  {
  }

  lemma ScanStarts(l0: Listing<ILInstr>, probes: map<int, nat>, s: Probes, leave: ProbeCall, bs: seq<Block<ILInstr>>)
    requires ValidBody(l0) && |bs| == |l0.order|
    ensures PlanOk(l0, probes, s, leave, bs, [], [], 0) && TargetsSoFar(l0, s, [], [], 0, 0) && !AfterTail(l0, 0)
  {
    if |l0.order| > 0 { assert ValidAt(l0, 0); }
  }

  lemma PlanStepExtends(l0: Listing<ILInstr>, probes: map<int, nat>, s: Probes, leave: ProbeCall, bs: seq<Block<ILInstr>>, bs': seq<Block<ILInstr>>,
                        priority: seq<ProbeInsertion>, at: seq<nat>, more: seq<ProbeInsertion>, more': seq<nat>, i: nat)
    requires WellFormed(l0) && i < |l0.order| && PlanOk(l0, probes, s, leave, bs, priority, at, i)
    requires PlanStep(l0, probes, s, leave, bs', more, more', i)
    requires forall k :: 0 <= k < |bs| && k != i ==> bs'[k] == bs[k]
    ensures PlanOk(l0, probes, s, leave, bs', priority + more, at + more', i + 1)
  {
    hide PlannedAt, Applicable;
    PlannedBehind(l0, s, leave, bs', priority, at, more, more', i);
    PlanExtends(l0, probes, s, leave, bs, bs', priority, at, more, more', i);
  }
}
