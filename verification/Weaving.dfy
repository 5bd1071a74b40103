/** Inserting the planned probes: what every single insertion keeps, and what it adds. */
module Weaving {
  import opened Opcodes
  import opened Listings
  import opened Machine
  import opened Blocks
  import opened Growth
  import opened Insertion
  import opened MethodBody
  import opened InstructionList
  import opened CoverageProbes
  import opened Planning
  import opened Scanning

  /** A block that has been grown in front starts with the `nop` that branches land on. */
  ghost predicate LandingNops(l: Listing<ILInstr>, bs: seq<Block<ILInstr>>) {
    forall k :: 0 <= k < |bs| ==> LandsOnNop(l, bs[k])
  }

  ghost predicate LandsOnNop(l: Listing<ILInstr>, b: Block<ILInstr>) {
    b.pre != [] ==> b.pre[0] in l.code && l.code[b.pre[0]].op == CEE_NOP
  }

  /** The list in the middle of the insertions. */
  ghost predicate Sane(probes: map<int, nat>, l0: Listing<ILInstr>, l: Listing<ILInstr>, bs: seq<Block<ILInstr>>) {
    Instrumented(probes, l0, l, [], bs) && ClausesInside(l) && LandingNops(l, bs)
  }

  ghost predicate FiresBefore(probes: map<int, nat>, l: Listing<ILInstr>, b: Block<ILInstr>, e: Event) {
    e in Fired(probes, l.code, b.pre)
  }

  ghost predicate FiresAfter(probes: map<int, nat>, l: Listing<ILInstr>, b: Block<ILInstr>, e: Event) {
    e in Fired(probes, l.code, b.post)
  }

  /** No block has lost a probe. */
  ghost predicate Grew(probes: map<int, nat>, l: Listing<ILInstr>, bs: seq<Block<ILInstr>>, l': Listing<ILInstr>, bs': seq<Block<ILInstr>>) {
    && |bs'| == |bs|
    && (forall k, e :: 0 <= k < |bs| && FiresBefore(probes, l, bs[k], e) ==> FiresBefore(probes, l', bs'[k], e))
    && (forall k, e :: 0 <= k < |bs| && FiresAfter(probes, l, bs[k], e) ==> FiresAfter(probes, l', bs'[k], e))
  }

  ghost predicate Fires(probes: map<int, nat>, l: Listing<ILInstr>, b: Block<ILInstr>, e: Event, before: bool) {
    if before then FiresBefore(probes, l, b, e) else FiresAfter(probes, l, b, e)
  }

  /** No probe is new but `e` in block `k`, in front of the instruction or behind it. */
  ghost predicate Adds(probes: map<int, nat>, l: Listing<ILInstr>, bs: seq<Block<ILInstr>>, l': Listing<ILInstr>, bs': seq<Block<ILInstr>>,
                       k: nat, e: Event, before: bool) {
    && |bs'| == |bs|
    && (forall i, x, f :: 0 <= i < |bs| && Fires(probes, l', bs'[i], x, f) ==> Fires(probes, l, bs[i], x, f) || (i == k && x == e && f == before))
  }

  /** Growing block `k` into `b`. */
  lemma Regrow(probes: map<int, nat>, l0: Listing<ILInstr>, l: Listing<ILInstr>, l': Listing<ILInstr>, bs: seq<Block<ILInstr>>,
               k: nat, j: nat, f: seq<ILInstr>, b: Block<ILInstr>, e: Event, before: bool)
    requires Sane(probes, l0, l, bs) && BlockGrows(probes, l0, l, l', [], bs, k, j, f, b) && LandsOnNop(l', b)
    requires forall x :: FiresBefore(probes, l, bs[k], x) ==> FiresBefore(probes, l', b, x)
    requires forall x :: FiresAfter(probes, l, bs[k], x) ==> FiresAfter(probes, l', b, x)
    requires forall x, g :: Fires(probes, l', b, x, g) ==> Fires(probes, l, bs[k], x, g) || (x == e && g == before)
    ensures Sane(probes, l0, l', bs[k := b]) && Grew(probes, l, bs, l', bs[k := b]) && Adds(probes, l, bs, l', bs[k := b], k, e, before)
  {
    hide Fired, Flatten, Start, GoodBlock, Neutral, EndsMoved, ClauseInside, Distinct, MayPrecede, MayFollow;
    GrowBlock(probes, l0, l, l', [], bs, k, j, f, b);
    var bs' := bs[k := b];
    forall i | 0 <= i < |bs'| ensures LandsOnNop(l', bs'[i]) {
      assert LandsOnNop(l, bs[i]);
      if i != k && bs[i].pre != [] {
        Unchanged(probes, l0, l, l', bs, i, k, j, f);
      }
    }
  }

  lemma Unchanged(probes: map<int, nat>, l0: Listing<ILInstr>, l: Listing<ILInstr>, l': Listing<ILInstr>, bs: seq<Block<ILInstr>>,
                  i: nat, k: nat, j: nat, f: seq<ILInstr>)
    requires Instrumented(probes, l0, l, [], bs) && i < |bs| && k < |bs| && i != k && j < |bs[k].Nodes()|
    requires Spliced(l, l', bs[k].Nodes()[j], f) && bs[i].pre != []
    ensures bs[i].pre[0] in l.code && bs[i].pre[0] in l'.code && l'.code[bs[i].pre[0]] == l.code[bs[i].pre[0]]
  {
    hide Flatten, Start, GoodBlock, Spliced;
    BlockCode([], l, l', bs, i, k, j, f);
  }

  /** The target of an insertion: the node of the original instruction, or the node that carries it now. */
  predicate IsTarget(l0: Listing<ILInstr>, bs: seq<Block<ILInstr>>, t: ILInstr, k: nat) {
    k < |bs| == |l0.order| && (t == l0.order[k] || t == bs[k].carrier)
  }

  lemma HomeIs(probes: map<int, nat>, l0: Listing<ILInstr>, l: Listing<ILInstr>, bs: seq<Block<ILInstr>>, k: nat)
    requires Instrumented(probes, l0, l, [], bs) && k < |bs|
    ensures l0.order[k] == if bs[k].pre == [] then bs[k].carrier else bs[k].pre[0]
  {
    HomeAt(l0, l, probes, bs, k);
  }

  /** A probe in front of the instruction of block `k`. */
  lemma WeaveBefore(probes: map<int, nat>, l0: Listing<ILInstr>, l: Listing<ILInstr>, l': Listing<ILInstr>, bs: seq<Block<ILInstr>>,
                    k: nat, t: ILInstr, f: seq<ILInstr>, e: Event)
    returns (b: Block<ILInstr>)
    requires Sane(probes, l0, l, bs) && IsTarget(l0, bs, t, k) && MayPrecede(l0, k)
    requires ProbedBefore(l, l', t, f, e) && IsProbeEvent(probes, e)
    ensures Sane(probes, l0, l', bs[k := b]) && Grew(probes, l, bs, l', bs[k := b]) && FiresBefore(probes, l', b, e)
    ensures Adds(probes, l, bs, l', bs[k := b], k, e, true)
    ensures if t == bs[k].carrier then b.carrier in f else b.carrier == bs[k].carrier
  {
    hide Instrumented, ClausesInside, BlockGrows, ProbedBefore, ProbedAfter, Fired, MayPrecede, Sane, Grew, Adds;
    SaneFacts(probes, l0, l, bs, k);
    HomeIs(probes, l0, l, bs, k);
    ProbedBeforeNop(l, l', t, f, e);
    if t == bs[k].carrier {
      b := BeforeCarrier(probes, l0, l, l', [], bs, k, f, e);
      if bs[k].pre != [] { StillNop(probes, l0, l, l', bs, k, t, f); }
      Regrow(probes, l0, l, l', bs, k, |bs[k].pre|, f, b, e, true);
    } else {
      b := AtLandingNop(probes, l0, l, l', [], bs, k, f, e);
      Regrow(probes, l0, l, l', bs, k, 0, f, b, e, true);
    }
  }

  lemma SaneFacts(probes: map<int, nat>, l0: Listing<ILInstr>, l: Listing<ILInstr>, bs: seq<Block<ILInstr>>, k: nat)
    requires Sane(probes, l0, l, bs) && k < |bs|
    ensures Instrumented(probes, l0, l, [], bs) && ClausesInside(l) && LandsOnNop(l, bs[k])
  {
  }

  lemma ProbedBeforeNop(l: Listing<ILInstr>, l': Listing<ILInstr>, t: ILInstr, f: seq<ILInstr>, e: Event)
    requires ProbedBefore(l, l', t, f, e)
    ensures t in l'.code && l'.code[t].op == CEE_NOP && Spliced(l, l', t, f)
  {
  }

  /** A landing `nop` stays one when the carrier behind it gets a probe. */
  lemma StillNop(probes: map<int, nat>, l0: Listing<ILInstr>, l: Listing<ILInstr>, l': Listing<ILInstr>, bs: seq<Block<ILInstr>>,
                 k: nat, t: ILInstr, f: seq<ILInstr>)
    requires Instrumented(probes, l0, l, [], bs) && k < |bs| && t == bs[k].carrier && bs[k].pre != []
    requires Spliced(l, l', t, f) && LandsOnNop(l, bs[k])
    ensures bs[k].pre[0] in l'.code && l'.code[bs[k].pre[0]].op == CEE_NOP
  {
    hide Flatten, Start, GoodBlock;
    InBlock(probes, l0, l, [], bs, k);
    var ns := bs[k].Nodes();
    assert ns[0] == bs[k].pre[0] && ns[|bs[k].pre|] == t;
    assert ns[0] in ns;
  }

  /** A probe behind the instruction of block `k`. */
  lemma WeaveAfter(probes: map<int, nat>, l0: Listing<ILInstr>, l: Listing<ILInstr>, l': Listing<ILInstr>, bs: seq<Block<ILInstr>>,
                   k: nat, t: ILInstr, f: seq<ILInstr>, e: Event)
    returns (b: Block<ILInstr>)
    requires Sane(probes, l0, l, bs) && k < |bs| && t == l0.order[k] && MayFollow(l0, k)
    requires ProbedAfter(l, l', t, f, e) && IsProbeEvent(probes, e)
    ensures Sane(probes, l0, l', bs[k := b]) && Grew(probes, l, bs, l', bs[k := b])
    ensures if bs[k].pre == [] then FiresAfter(probes, l', b, e) else FiresBefore(probes, l', b, e)
    ensures Adds(probes, l, bs, l', bs[k := b], k, e, bs[k].pre != [])
    ensures b.carrier == bs[k].carrier && (bs[k].pre == [] ==> b.pre == [])
  {
    hide Instrumented, ClausesInside, BlockGrows, ProbedBefore, ProbedAfter, Fired, MayFollow, Sane, Grew, Adds;
    SaneFacts(probes, l0, l, bs, k);
    HomeIs(probes, l0, l, bs, k);
    if bs[k].pre == [] {
      b := AfterCarrier(probes, l0, l, l', [], bs, k, f, e);
      Regrow(probes, l0, l, l', bs, k, |bs[k].pre|, f, b, e, bs[k].pre != []);
    } else {
      b := AtLandingNop(probes, l0, l, l', [], bs, k, f, e);
      ProbedAfterSame(l, l', t, f, e);
      Regrow(probes, l0, l, l', bs, k, 0, f, b, e, bs[k].pre != []);
    }
  }

  lemma ProbedAfterSame(l: Listing<ILInstr>, l': Listing<ILInstr>, t: ILInstr, f: seq<ILInstr>, e: Event)
    requires ProbedAfter(l, l', t, f, e)
    ensures t in l'.code && l'.code[t] == l.code[t]
  {
  }

  ghost predicate Woven(pilr: ILRewriter, l0: Listing<ILInstr>, probes: map<int, nat>, bs: seq<Block<ILInstr>>)
    reads pilr, pilr.head, pilr.nodes
  {
    pilr.Valid() && ValidBody(l0) && Sane(probes, l0, pilr.View(), bs) && pilr.head == l0.end && pilr.head.opcode == -1
  }

  /** Where the target of an insertion stands in the list. */
  lemma TargetAt(pilr: ILRewriter, l0: Listing<ILInstr>, probes: map<int, nat>, bs: seq<Block<ILInstr>>, t: ILInstr, k: nat) returns (p: nat)
    requires Woven(pilr, l0, probes, bs) && IsTarget(l0, bs, t, k)
    ensures p < |pilr.nodes| && pilr.nodes[p] == t && t in pilr.nodes && t != pilr.head
  {
    hide Flatten, Start, GoodBlock, LandingNops, ClausesInside, ValidAt, ValidClause, ILRewriter.Linked;
    HomeIs(probes, l0, pilr.View(), bs, k);
    NodesAre(pilr, l0, probes, bs);
    BlockAt(bs, k);
    var j := if t == bs[k].carrier then |bs[k].pre| else 0;
    NodeAt([], bs, k, j);
    assert [] + Flatten(bs) == Flatten(bs);
    p := Start(bs, k) + j;
    NodesDistinct(pilr);
  }

  /** What the pushes of the copied instruction cost, if an insertion copies one that is not a `nop`. */
  function CopyCost(l0: Listing<ILInstr>, ins: ProbeInsertion, carrier: ILInstr, k: nat): nat
    requires WellFormed(l0)
  {
    if ins.isBeforeInstr && ins.target == carrier then Pushes(OpAt(l0, k)) else 0
  }

  lemma TargetPushes(pilr: ILRewriter, l0: Listing<ILInstr>, probes: map<int, nat>, bs: seq<Block<ILInstr>>, t: ILInstr, k: nat)
    requires Woven(pilr, l0, probes, bs) && IsTarget(l0, bs, t, k) && t in pilr.nodes
    ensures Pushes(t.opcode) == if t == bs[k].carrier then Pushes(OpAt(l0, k)) else 0
  {
    hide Flatten, Start, GoodBlock, ClausesInside, ValidAt, ValidClause, ILRewriter.Linked;
    HomeIs(probes, l0, pilr.View(), bs, k);
    Sound(probes, l0, pilr.View(), [], bs, k);
    assert LandsOnNop(pilr.View(), bs[k]);
  }

  lemma BeforeLength(l: Listing<ILInstr>, l': Listing<ILInstr>, t: ILInstr, f: seq<ILInstr>, e: Event)
    requires ProbedBefore(l, l', t, f, e)
    ensures |l'.order| == |l.order| + 5
  {
  }

  lemma AfterLength(l: Listing<ILInstr>, l': Listing<ILInstr>, t: ILInstr, f: seq<ILInstr>, e: Event)
    requires ProbedAfter(l, l', t, f, e)
    ensures |l'.order| == |l.order| + 5
  {
  }

  /** Makes one planned insertion. */
  method MakeProbeInsertion(pilr: ILRewriter, ins: ProbeInsertion, methodId: int,
                            ghost l0: Listing<ILInstr>, ghost probes: map<int, nat>, ghost bs: seq<Block<ILInstr>>, ghost k: nat)
    returns (ghost b: Block<ILInstr>)
    requires Woven(pilr, l0, probes, bs) && Applicable(l0, probes, bs, ins, k)
    modifies pilr`nInstrs, pilr`maxStack, pilr`nodes, pilr`clauses
    modifies pilr.head`prev, (set n | n in pilr.nodes)`next, (set n | n in pilr.nodes)`prev, (set n | n in pilr.nodes)`opcode
    ensures Woven(pilr, l0, probes, bs[k := b]) && Grew(probes, old(pilr.View()), bs, pilr.View(), bs[k := b])
    ensures var e := EventFor(ins.probe, old(ins.target.offset), methodId);
            if !ins.isBeforeInstr && bs[k].pre == [] then FiresAfter(probes, pilr.View(), b, e) else FiresBefore(probes, pilr.View(), b, e)
    ensures Adds(probes, old(pilr.View()), bs, pilr.View(), bs[k := b], k, EventFor(ins.probe, old(ins.target.offset), methodId),
                 ins.isBeforeInstr || bs[k].pre != [])
    ensures if ins.isBeforeInstr && ins.target == bs[k].carrier then fresh(b.carrier) else b.carrier == bs[k].carrier
    ensures forall n :: n in pilr.nodes ==> n in old(pilr.nodes) || fresh(n)
    ensures pilr.maxStack == old(pilr.maxStack) + 4 + CopyCost(l0, ins, bs[k].carrier, k)
    ensures |pilr.nodes| == |old(pilr.nodes)| + 5
  {
    hide Sane, Grew, Adds, ProbedBefore, ProbedAfter, ILRewriter.Linked, ILRewriter.View, ValidBody, MayPrecede, MayFollow, FiresBefore, FiresAfter;
    ghost var l, e := pilr.View(), EventFor(ins.probe, ins.target.offset, methodId);
    ghost var p := TargetAt(pilr, l0, probes, bs, ins.target, k);
    TargetPushes(pilr, l0, probes, bs, ins.target, k);
    ViewOrder(pilr);
    ghost var f;
    var last;
    if ins.isBeforeInstr {
      last, f := AddCoverageProbeBefore(pilr, ins.target, ins.probe, methodId, p);
      b := WeaveBefore(probes, l0, l, pilr.View(), bs, k, ins.target, f, e);
      BeforeLength(l, pilr.View(), ins.target, f, e);
    } else {
      last, f := AddCoverageProbeAfter(pilr, ins.target, ins.probe, methodId, p);
      b := WeaveAfter(probes, l0, l, pilr.View(), bs, k, ins.target, f, e);
      AfterLength(l, pilr.View(), ins.target, f, e);
    }
    ViewOrder(pilr);
  }
}
