/** The rewriter: scans a method body, inserts the planned probes and adds the probe for the start of the method. */
module RewriteIL {
  import opened Opcodes
  import opened Listings
  import opened Machine
  import opened Blocks
  import opened Growth
  import opened Insertion
  import opened MethodBody
  import opened Accounting
  import opened InstructionList
  import opened CoverageProbes
  import opened Planning
  import opened Scanning
  import opened Weaving

  /** At most one insertion at a block is behind the instruction, and then it is the first; at most one is not at the
      node of the original instruction. */
  ghost predicate Orderly(l0: Listing<ILInstr>, priority: seq<ProbeInsertion>, at: seq<nat>) {
    && |at| == |priority|
    && (forall j :: 0 <= j < |at| ==> at[j] < |l0.order|)
    && (forall j, k :: 0 <= j < k < |priority| && at[j] == at[k] ==>
          priority[k].isBeforeInstr && (priority[j].target == l0.order[at[j]] || priority[k].target == l0.order[at[k]]))
  }

  /** The insertions from `j` on can still be made. */
  ghost predicate Todo(l0: Listing<ILInstr>, probes: map<int, nat>, bs: seq<Block<ILInstr>>, priority: seq<ProbeInsertion>, at: seq<nat>, j: nat)
    requires WellFormed(l0)
  {
    && |at| == |priority|
    && (forall h :: j <= h < |priority| ==>
          && Applicable(l0, probes, bs, priority[h], at[h])
          && (!priority[h].isBeforeInstr ==> bs[at[h]].pre == []))
  }

  ghost predicate DoneOne(probes: map<int, nat>, l: Listing<ILInstr>, bs: seq<Block<ILInstr>>, ins: ProbeInsertion, k: nat,
                          off: map<ILInstr, int>, methodId: int) {
    && k < |bs| && ins.target in off
    && Fires(probes, l, bs[k], EventFor(ins.probe, off[ins.target], methodId), ins.isBeforeInstr)
  }

  // ---------- Probes report nothing but their own instruction ----------

  /** The probes at the instruction at `k` are those that it demands, or that a `stsfld` behind it demands, that of a handler
      and that for falling through into a branch target, and they report its offset.  Those of a `tail.` prefix report the
      call and the return, which have no probes of their own unless a handler starts there. */
  ghost predicate OwnReport(l0: Listing<ILInstr>, s: Probes, leave: ProbeCall, k: nat, probe: int, o: int, before: bool)
    requires WellFormed(l0)
  {
    if OpAt(l0, k) == CEE_TAILCALL then
      && k + 2 < |l0.order| && before
      && (|| (o == OffsetAt(l0, k + 1) && probe == s.tailcall.addr)
          || (o == OffsetAt(l0, k + 2) && (probe == s.coverage.addr || (HandlerStarts(l0, k) && probe == s.throw.addr))))
    else
      && k < |l0.order| && o == OffsetAt(l0, k)
      && (|| DemandedBy(l0, s, leave, k, k, probe, before) || DemandedBy(l0, s, leave, k + 1, k, probe, before)
          || (before && HandlerStarts(l0, k) && probe == s.throw.addr)
          || (!before && IsBranchTarget(l0, k + 1) && !InTailCall(l0, k) && probe == s.coverage.addr))
  }

  /** The instruction at `q` demands the probe, in front of or behind the instruction at `k`. */
  predicate DemandedBy(l0: Listing<ILInstr>, s: Probes, leave: ProbeCall, q: nat, k: nat, probe: int, before: bool)
    requires WellFormed(l0)
  {
    var d := DemandAt(l0, s, leave, q);
    q < |l0.order| && Site(l0, q) == k && d.Probe? && d.probe.addr == probe && d.before == before
  }

  ghost predicate OwnEvent(l0: Listing<ILInstr>, k: nat, s: Probes, leave: ProbeCall, methodId: int, e: Event, before: bool)
    requires WellFormed(l0)
  {
    |e.args| == 2 && OwnReport(l0, s, leave, k, e.probe, e.args[0], before) && e.args[1] == methodId
  }

  ghost predicate Truthful(probes: map<int, nat>, l0: Listing<ILInstr>, l: Listing<ILInstr>, bs: seq<Block<ILInstr>>, s: Probes,
                           leave: ProbeCall, methodId: int)
    requires WellFormed(l0)
  {
    && |bs| == |l0.order|
    && (forall k, e, f :: 0 <= k < |bs| && Fires(probes, l, bs[k], e, f) ==> OwnEvent(l0, k, s, leave, methodId, e, f))
  }

  lemma TruthfulGrows(probes: map<int, nat>, l0: Listing<ILInstr>, l: Listing<ILInstr>, bs: seq<Block<ILInstr>>, l': Listing<ILInstr>,
                      bs': seq<Block<ILInstr>>, k: nat, e: Event, before: bool, s: Probes, leave: ProbeCall, methodId: int)
    requires WellFormed(l0) && Truthful(probes, l0, l, bs, s, leave, methodId) && Adds(probes, l, bs, l', bs', k, e, before)
    requires OwnEvent(l0, k, s, leave, methodId, e, before)
    ensures Truthful(probes, l0, l', bs', s, leave, methodId)
  {
    hide Fires, OwnEvent;
  }

  /** The scan inserts no probes. */
  lemma ScanIsTruthful(probes: map<int, nat>, l0: Listing<ILInstr>, l: Listing<ILInstr>, bs: seq<Block<ILInstr>>, s: Probes,
                       leave: ProbeCall, methodId: int)
    requires WellFormed(l0) && Sane(probes, l0, l, bs) && ScanShape(l0, bs, |l0.order|)
    ensures Truthful(probes, l0, l, bs, s, leave, methodId)
  {
    hide Instrumented, ClausesInside, OwnEvent, Neutral, Events, Fires;
    forall k | 0 <= k < |bs| ensures forall e, f :: !Fires(probes, l, bs[k], e, f) {
      NothingFires(probes, l, bs[k]);
    }
  }

  lemma NothingFires(probes: map<int, nat>, l: Listing<ILInstr>, b: Block<ILInstr>)
    requires LandsOnNop(l, b) && |b.pre| <= 1 && b.post == []
    ensures forall e, f :: !Fires(probes, l, b, e, f)
  {
    if b.pre != [] { assert b.pre == [b.pre[0]]; NeutralNop(probes, l.code, b.pre[0]); }
  }

  /** Planned insertions report their own instruction. */
  ghost predicate OwnTargets(l0: Listing<ILInstr>, s: Probes, leave: ProbeCall, priority: seq<ProbeInsertion>, at: seq<nat>, off: map<ILInstr, int>)
    requires WellFormed(l0)
  {
    && |at| == |priority|
    && (forall h :: 0 <= h < |priority| ==>
          && priority[h].target in off
          && OwnReport(l0, s, leave, at[h], priority[h].probe.addr, off[priority[h].target], priority[h].isBeforeInstr))
  }

  /** The insertions before `j` have been made, and their probes are in place. */
  ghost predicate Done(probes: map<int, nat>, l: Listing<ILInstr>, bs: seq<Block<ILInstr>>, priority: seq<ProbeInsertion>, at: seq<nat>,
                       off: map<ILInstr, int>, methodId: int, j: nat) {
    && j <= |priority| == |at|
    && (forall h :: 0 <= h < j ==> DoneOne(probes, l, bs, priority[h], at[h], off, methodId))
  }

  lemma DoneGrows(probes: map<int, nat>, l: Listing<ILInstr>, bs: seq<Block<ILInstr>>, l': Listing<ILInstr>, bs': seq<Block<ILInstr>>,
                  priority: seq<ProbeInsertion>, at: seq<nat>, off: map<ILInstr, int>, methodId: int, j: nat)
    requires Done(probes, l, bs, priority, at, off, methodId, j) && Grew(probes, l, bs, l', bs')
    ensures Done(probes, l', bs', priority, at, off, methodId, j)
  {
    hide FiresBefore, FiresAfter;
    forall h | 0 <= h < j ensures DoneOne(probes, l', bs', priority[h], at[h], off, methodId) {
      assert DoneOne(probes, l, bs, priority[h], at[h], off, methodId);
    }
  }

  lemma TodoNext(l0: Listing<ILInstr>, probes: map<int, nat>, bs: seq<Block<ILInstr>>, b: Block<ILInstr>,
                 priority: seq<ProbeInsertion>, at: seq<nat>, j: nat)
    requires WellFormed(l0) && Orderly(l0, priority, at) && j < |priority| && Todo(l0, probes, bs, priority, at, j)
    requires b.carrier == bs[at[j]].carrier || priority[j].target == bs[at[j]].carrier
    ensures Todo(l0, probes, bs[at[j] := b], priority, at, j + 1)
  {
    hide MayPrecede, MayFollow, Distinct;
    var bs' := bs[at[j] := b];
    forall h | j + 1 <= h < |priority|
      ensures Applicable(l0, probes, bs', priority[h], at[h]) && (!priority[h].isBeforeInstr ==> bs'[at[h]].pre == [])
    {
      assert Applicable(l0, probes, bs, priority[h], at[h]);
      assert at[h] == at[j] ==> priority[h].isBeforeInstr;
    }
  }

  /** Every probed offset is recorded. */
  ghost predicate Recorded(priority: seq<ProbeInsertion>, off: map<ILInstr, int>, covered: set<int>, j: nat) {
    && j <= |priority|
    && (forall o :: o in covered ==> exists h :: 0 <= h < j && HasOffset(priority[h], off, o))
    && (forall h :: 0 <= h < j && priority[h].target in off ==> off[priority[h].target] in covered)
  }

  predicate HasOffset(ins: ProbeInsertion, off: map<ILInstr, int>, o: int) {
    ins.target in off && off[ins.target] == o
  }

  lemma RecordedNext(priority: seq<ProbeInsertion>, off: map<ILInstr, int>, covered: set<int>, j: nat)
    requires Recorded(priority, off, covered, j) && j < |priority| && priority[j].target in off
    ensures Recorded(priority, off, covered + {off[priority[j].target]}, j + 1)
  {
    var covered' := covered + {off[priority[j].target]};
    forall o | o in covered' ensures exists h :: 0 <= h < j + 1 && HasOffset(priority[h], off, o) {
      if o in covered {
        var h :| 0 <= h < j && HasOffset(priority[h], off, o);
        assert 0 <= h < j + 1;
      } else {
        assert HasOffset(priority[j], off, o);
      }
    }
  }

  // What the insertions cost

  /** The blocks whose instruction has moved behind a probe. */
  ghost predicate MovedSoFar(l0: Listing<ILInstr>, bs: seq<Block<ILInstr>>, moved: set<nat>)
    requires WellFormed(l0)
  {
    |bs| == |l0.order| && forall k :: 0 <= k < |bs| ==> MovedAt(l0, bs, moved, k)
  }

  ghost predicate MovedAt(l0: Listing<ILInstr>, bs: seq<Block<ILInstr>>, moved: set<nat>, k: nat)
    requires WellFormed(l0) && k < |bs| == |l0.order|
  {
    && (k in moved ==> bs[k].carrier != l0.order[k])
    && (bs[k].carrier != l0.order[k] ==> k in moved || OpAt(l0, k) == CEE_TAILCALL)
  }

  /** They are those of the insertions before `j` in front of an instruction. */
  ghost predicate MovedBy(priority: seq<ProbeInsertion>, at: seq<nat>, moved: set<nat>, j: nat) {
    && j <= |priority| == |at|
    && (forall h :: 0 <= h < j && priority[h].isBeforeInstr ==> at[h] in moved)
    && (forall k :: k in moved ==> exists h :: 0 <= h < j && at[h] == k && priority[h].isBeforeInstr)
  }

  lemma MovedByNext(priority: seq<ProbeInsertion>, at: seq<nat>, moved: set<nat>, j: nat)
    requires MovedBy(priority, at, moved, j) && j < |priority|
    ensures MovedBy(priority, at, if priority[j].isBeforeInstr then moved + {at[j]} else moved, j + 1)
  {
    var moved' := if priority[j].isBeforeInstr then moved + {at[j]} else moved;
    forall k | k in moved' ensures exists h :: 0 <= h < j + 1 && at[h] == k && priority[h].isBeforeInstr {
      if k in moved {
        var h :| 0 <= h < j && at[h] == k && priority[h].isBeforeInstr;
        assert 0 <= h < j + 1;
      } else {
        assert at[j] == k;
      }
    }
  }

  /** Only a node that pushes nothing is copied twice. */
  ghost predicate FreeCopies(l0: Listing<ILInstr>, priority: seq<ProbeInsertion>, at: seq<nat>)
    requires WellFormed(l0)
  {
    && |at| == |priority|
    && (forall h :: 0 <= h < |at| ==> at[h] < |l0.order|)
    && (forall h :: 0 <= h < |priority| && priority[h].isBeforeInstr && priority[h].target != l0.order[at[h]] ==>
          Pushes(OpAt(l0, at[h])) == 0)
  }

  lemma MovedNext(l0: Listing<ILInstr>, probes: map<int, nat>, bs: seq<Block<ILInstr>>, b: Block<ILInstr>, moved: set<nat>,
                  ins: ProbeInsertion, k: nat)
    requires WellFormed(l0) && MovedSoFar(l0, bs, moved) && Applicable(l0, probes, bs, ins, k)
    requires ins.isBeforeInstr && ins.target != l0.order[k] ==> Pushes(OpAt(l0, k)) == 0
    requires if ins.isBeforeInstr && ins.target == bs[k].carrier then b.carrier != l0.order[k] else b.carrier == bs[k].carrier
    ensures var moved', n := if ins.isBeforeInstr then moved + {k} else moved, |l0.order|;
            && MovedSoFar(l0, bs[k := b], moved')
            && MovedPushes(l0, moved', n) == MovedPushes(l0, moved, n) + CopyCost(l0, ins, bs[k].carrier, k)
  {
    hide MayPrecede, MayFollow, TwoArguments;
    assert MovedAt(l0, bs, moved, k);
    MovedMore(l0, moved, k, |l0.order|);
    var moved', bs' := if ins.isBeforeInstr then moved + {k} else moved, bs[k := b];
    forall i | 0 <= i < |bs'| ensures MovedAt(l0, bs', moved', i) { assert MovedAt(l0, bs, moved, i); }
  }

  /** The insertions can be made one after the other, and report what they should. */
  ghost predicate PlanReady(l0: Listing<ILInstr>, s: Probes, leave: ProbeCall, priority: seq<ProbeInsertion>, at: seq<nat>, off: map<ILInstr, int>) {
    && WellFormed(l0) && Orderly(l0, priority, at) && OwnTargets(l0, s, leave, priority, at, off) && FreeCopies(l0, priority, at)
  }

  /** The first `j` insertions have been made. */
  ghost predicate Progress(probes: map<int, nat>, l0: Listing<ILInstr>, l: Listing<ILInstr>, bs: seq<Block<ILInstr>>,
                           priority: seq<ProbeInsertion>, at: seq<nat>, off: map<ILInstr, int>, s: Probes, leave: ProbeCall, methodId: int,
                           covered: set<int>, moved: set<nat>, j: nat) {
    && WellFormed(l0) && Todo(l0, probes, bs, priority, at, j) && Done(probes, l, bs, priority, at, off, methodId, j)
    && Truthful(probes, l0, l, bs, s, leave, methodId) && Recorded(priority, off, covered, j)
    && MovedSoFar(l0, bs, moved) && MovedBy(priority, at, moved, j)
  }

  lemma ProgressStarts(probes: map<int, nat>, l0: Listing<ILInstr>, l: Listing<ILInstr>, bs: seq<Block<ILInstr>>,
                       priority: seq<ProbeInsertion>, at: seq<nat>, off: map<ILInstr, int>, s: Probes, leave: ProbeCall, methodId: int)
    requires WellFormed(l0) && Todo(l0, probes, bs, priority, at, 0) && Truthful(probes, l0, l, bs, s, leave, methodId) && MovedSoFar(l0, bs, {})
    ensures Progress(probes, l0, l, bs, priority, at, off, s, leave, methodId, {}, {}, 0) && MovedPushes(l0, {}, |l0.order|) == 0
  {
    hide Truthful, MovedSoFar, Applicable;
    MovedNone(l0, |l0.order|);
  }

  lemma ProgressNow(probes: map<int, nat>, l0: Listing<ILInstr>, l: Listing<ILInstr>, bs: seq<Block<ILInstr>>,
                    priority: seq<ProbeInsertion>, at: seq<nat>, off: map<ILInstr, int>, s: Probes, leave: ProbeCall, methodId: int,
                    covered: set<int>, moved: set<nat>, j: nat)
    requires PlanReady(l0, s, leave, priority, at, off) && Progress(probes, l0, l, bs, priority, at, off, s, leave, methodId, covered,
             moved, j) && j < |priority|
    ensures |at| == |priority| && at[j] < |l0.order| == |bs| && Applicable(l0, probes, bs, priority[j], at[j]) && priority[j].target in off
    ensures !priority[j].isBeforeInstr ==> bs[at[j]].pre == []
  {
    hide OwnReport, Truthful, MayPrecede, MayFollow;
  }

  lemma ProgressNext(probes: map<int, nat>, l0: Listing<ILInstr>, l: Listing<ILInstr>, bs: seq<Block<ILInstr>>, l': Listing<ILInstr>,
                     b: Block<ILInstr>, priority: seq<ProbeInsertion>, at: seq<nat>, off: map<ILInstr, int>, s: Probes, leave: ProbeCall, methodId: int,
                     covered: set<int>, moved: set<nat>, j: nat)
    requires PlanReady(l0, s, leave, priority, at, off) && Progress(probes, l0, l, bs, priority, at, off, s, leave, methodId, covered,
             moved, j) && j < |priority|
    requires at[j] < |bs| && priority[j].target in off
    requires var ins, k, e := priority[j], at[j], EventFor(priority[j].probe, off[priority[j].target], methodId);
             && Grew(probes, l, bs, l', bs[k := b]) && Adds(probes, l, bs, l', bs[k := b], k, e, ins.isBeforeInstr)
             && Fires(probes, l', b, e, ins.isBeforeInstr)
             && (if ins.isBeforeInstr && ins.target == bs[k].carrier then b.carrier != l0.order[k] else b.carrier == bs[k].carrier)
    ensures var ins, k := priority[j], at[j];
            var moved', n := if ins.isBeforeInstr then moved + {k} else moved, |l0.order|;
            && Progress(probes, l0, l', bs[k := b], priority, at, off, s, leave, methodId, covered + {off[ins.target]}, moved', j + 1)
            && MovedPushes(l0, moved', n) == MovedPushes(l0, moved, n) + CopyCost(l0, ins, bs[k].carrier, k)
  {
    hide Grew, Adds, Truthful, OwnReport, Done, Todo, Applicable, Recorded, FiresBefore, FiresAfter, MovedSoFar, MovedBy, WellFormed, Fires;
    var ins, k, e := priority[j], at[j], EventFor(priority[j].probe, off[priority[j].target], methodId);
    TodoNow(l0, probes, bs, priority, at, j);
    TruthfulGrows(probes, l0, l, bs, l', bs[k := b], k, e, ins.isBeforeInstr, s, leave, methodId);
    MovedNext(l0, probes, bs, b, moved, ins, k);
    MovedByNext(priority, at, moved, j);
    RecordedNext(priority, off, covered, j);
    TodoNext(l0, probes, bs, b, priority, at, j);
    DoneGrows(probes, l, bs, l', bs[k := b], priority, at, off, methodId, j);
    DoneNext(probes, l', bs[k := b], priority, at, off, methodId, j);
  }

  /** Makes the planned insertions, and returns the offsets of the instructions that got a probe. */
  method InsertPriorityProbes(pilr: ILRewriter, priority: seq<ProbeInsertion>, ghost s: Probes, ghost leave: ProbeCall, methodId: int,
                              ghost l0: Listing<ILInstr>,
                              ghost probes: map<int, nat>, ghost bs0: seq<Block<ILInstr>>, ghost at: seq<nat>, ghost off: map<ILInstr, int>)
    returns (covered: set<int>, ghost bs: seq<Block<ILInstr>>, ghost moved: set<nat>)
    requires Woven(pilr, l0, probes, bs0) && PlanReady(l0, s, leave, priority, at, off)
    requires Todo(l0, probes, bs0, priority, at, 0) && Truthful(probes, l0, pilr.View(), bs0, s, leave, methodId) && MovedSoFar(l0, bs0, {})
    requires forall n :: n in off ==> n.offset == off[n]
    modifies pilr`nInstrs, pilr`maxStack, pilr`nodes, pilr`clauses
    modifies pilr.head`prev, (set n | n in pilr.nodes)`next, (set n | n in pilr.nodes)`prev, (set n | n in pilr.nodes)`opcode
    ensures Woven(pilr, l0, probes, bs)
    ensures Progress(probes, l0, pilr.View(), bs, priority, at, off, s, leave, methodId, covered, moved, |priority|)
    ensures forall n :: n in off ==> n.offset == off[n]
    ensures forall n :: n in pilr.nodes ==> n in old(pilr.nodes) || fresh(n)
    ensures pilr.maxStack == old(pilr.maxStack) + 4 * |priority| + MovedPushes(l0, moved, |l0.order|)
    ensures |pilr.nodes| == |old(pilr.nodes)| + 5 * |priority|
  {
    hide Woven, Grew, Adds, Progress, PlanReady, Todo, Truthful, MovedSoFar, Applicable, ILRewriter.View, WellFormed, FiresBefore, FiresAfter,
         MovedPushes, CopyCost;
    covered, bs, moved := {}, bs0, {};
    IsWellFormed(pilr, l0, probes, bs0);
    ProgressStarts(probes, l0, pilr.View(), bs0, priority, at, off, s, leave, methodId);
    for j := 0 to |priority|
      invariant Woven(pilr, l0, probes, bs)
      invariant Progress(probes, l0, pilr.View(), bs, priority, at, off, s, leave, methodId, covered, moved, j)
      invariant forall n :: n in off ==> n.offset == off[n]
      invariant forall n :: n in pilr.nodes ==> n in old(pilr.nodes) || fresh(n)
      invariant pilr.maxStack == old(pilr.maxStack) + 4 * j + MovedPushes(l0, moved, |l0.order|)
      invariant |pilr.nodes| == |old(pilr.nodes)| + 5 * j
    {
      ProgressNow(probes, l0, pilr.View(), bs, priority, at, off, s, leave, methodId, covered, moved, j);
      ghost var l, k := pilr.View(), at[j];
      ghost var b := MakeProbeInsertion(pilr, priority[j], methodId, l0, probes, bs, k);
      ProgressNext(probes, l0, l, bs, pilr.View(), b, priority, at, off, s, leave, methodId, covered, moved, j);
      covered := covered + {priority[j].target.offset};
      moved := if priority[j].isBeforeInstr then moved + {k} else moved;
      bs := bs[k := b];
    }
  }

  lemma IsWellFormed(pilr: ILRewriter, l0: Listing<ILInstr>, probes: map<int, nat>, bs: seq<Block<ILInstr>>)
    requires Woven(pilr, l0, probes, bs)
    ensures WellFormed(l0)
  {
  }

  lemma TodoNow(l0: Listing<ILInstr>, probes: map<int, nat>, bs: seq<Block<ILInstr>>, priority: seq<ProbeInsertion>, at: seq<nat>, j: nat)
    requires WellFormed(l0) && Todo(l0, probes, bs, priority, at, j) && j < |priority|
    ensures |at| == |priority| && at[j] < |bs| && Applicable(l0, probes, bs, priority[j], at[j])
    ensures !priority[j].isBeforeInstr ==> bs[at[j]].pre == []
  {
  }

  lemma DoneNext(probes: map<int, nat>, l: Listing<ILInstr>, bs: seq<Block<ILInstr>>, priority: seq<ProbeInsertion>, at: seq<nat>,
                 off: map<ILInstr, int>, methodId: int, j: nat)
    requires Done(probes, l, bs, priority, at, off, methodId, j) && j < |priority|
    requires DoneOne(probes, l, bs, priority[j], at[j], off, methodId)
    ensures Done(probes, l, bs, priority, at, off, methodId, j + 1)
  {
    hide DoneOne;
  }

  // ---------- The fall-through into branch targets ----------

  /** Some probe of the block reports the offset. */
  ghost predicate Reports(probes: map<int, nat>, l: Listing<ILInstr>, b: Block<ILInstr>, o: int, methodId: int) {
    exists e: Event :: e.args == [o, methodId] && (FiresBefore(probes, l, b, e) || FiresAfter(probes, l, b, e))
  }

  /** What the set of probed offsets means: outside tail calls, an offset in it has been reported.  The instructions of
      a tail call and `switch` are always in it. */
  ghost predicate Justified(probes: map<int, nat>, l0: Listing<ILInstr>, l: Listing<ILInstr>, bs: seq<Block<ILInstr>>, covered: set<int>, methodId: int)
    requires WellFormed(l0)
  {
    && |bs| == |l0.order|
    && (forall x :: 0 <= x < |bs| && !InTailCall(l0, x) && OffsetAt(l0, x) in covered ==> Reports(probes, l, bs[x], OffsetAt(l0, x), methodId))
    && (forall x :: 0 <= x < |bs| ==> MustBeCovered(l0, covered, x))
    && (forall x :: 0 <= x < |bs| ==> MovedIsCovered(l0, bs, covered, x))
  }

  /** Outside tail calls, whatever has moved behind a probe has been reported. */
  ghost predicate MovedIsCovered(l0: Listing<ILInstr>, bs: seq<Block<ILInstr>>, covered: set<int>, x: nat)
    requires WellFormed(l0) && x < |bs| == |l0.order|
  {
    bs[x].carrier != l0.order[x] && OpAt(l0, x) != CEE_TAILCALL ==> OffsetAt(l0, x) in covered
  }

  ghost predicate MustBeCovered(l0: Listing<ILInstr>, covered: set<int>, x: nat)
    requires WellFormed(l0) && x < |l0.order|
  {
    OpAt(l0, x) == CEE_SWITCH || OpAt(l0, x - 1) == CEE_TAILCALL || OpAt(l0, x - 2) == CEE_TAILCALL ==> OffsetAt(l0, x) in covered
  }

  lemma ReportsGrows(probes: map<int, nat>, l: Listing<ILInstr>, bs: seq<Block<ILInstr>>, l': Listing<ILInstr>, bs': seq<Block<ILInstr>>,
                     x: nat, o: int, methodId: int)
    requires Grew(probes, l, bs, l', bs') && x < |bs| && Reports(probes, l, bs[x], o, methodId)
    ensures Reports(probes, l', bs'[x], o, methodId)
  {
    hide FiresBefore, FiresAfter;
    var e: Event :| e.args == [o, methodId] && (FiresBefore(probes, l, bs[x], e) || FiresAfter(probes, l, bs[x], e));
    assert FiresBefore(probes, l', bs'[x], e) || FiresAfter(probes, l', bs'[x], e);
  }

  lemma JustifiedGrows(probes: map<int, nat>, l0: Listing<ILInstr>, l: Listing<ILInstr>, bs: seq<Block<ILInstr>>, l': Listing<ILInstr>,
                       bs': seq<Block<ILInstr>>, covered: set<int>, methodId: int, y: nat)
    requires ValidBody(l0) && Justified(probes, l0, l, bs, covered, methodId) && Grew(probes, l, bs, l', bs')
    requires y < |bs| && Reports(probes, l', bs'[y], OffsetAt(l0, y), methodId)
    requires forall x :: 0 <= x < |bs| ==> bs'[x].carrier == bs[x].carrier
    ensures Justified(probes, l0, l', bs', covered + {OffsetAt(l0, y)}, methodId)
  {
    hide Reports, InTailCall, OffsetAt;
    forall x | 0 <= x < |bs| && !InTailCall(l0, x) && OffsetAt(l0, x) in covered + {OffsetAt(l0, y)}
      ensures Reports(probes, l', bs'[x], OffsetAt(l0, x), methodId)
    {
      if OffsetAt(l0, x) in covered {
        ReportsGrows(probes, l, bs, l', bs', x, OffsetAt(l0, x), methodId);
      } else {
        OffsetsDiffer(l0, x, y);
      }
    }
    forall x | 0 <= x < |bs|
      ensures MustBeCovered(l0, covered + {OffsetAt(l0, y)}, x) && MovedIsCovered(l0, bs', covered + {OffsetAt(l0, y)}, x)
    {
      assert MustBeCovered(l0, covered, x) && MovedIsCovered(l0, bs, covered, x);
    }
  }

  /** An instruction whose offset has not been probed yet may get a probe behind it, and is outside tail calls. */
  lemma Uncovered(probes: map<int, nat>, l0: Listing<ILInstr>, l: Listing<ILInstr>, bs: seq<Block<ILInstr>>, covered: set<int>, methodId: int, x: nat)
    requires ValidBody(l0) && Justified(probes, l0, l, bs, covered, methodId) && x + 1 < |l0.order| && Enterable(l0, x + 1)
    requires OffsetAt(l0, x) !in covered
    ensures MayFollow(l0, x) && !InTailCall(l0, x) && bs[x].carrier == l0.order[x]
  {
    hide Reports, OffsetAt, ValidAt, Distinct;
    assert MustBeCovered(l0, covered, x) && MovedIsCovered(l0, bs, covered, x);
  }

  predicate IsTailcallRet(instr: ILInstr)
    requires instr.prev != null && instr.prev.prev != null
    reads instr, instr.prev, instr.prev.prev
  {
    instr.opcode == CEE_RET && instr.prev.prev.opcode == CEE_TAILCALL
  }

  lemma {:induction false} NeutralOps(probes: map<int, nat>, code: map<ILInstr, Instr<ILInstr>>, s: seq<ILInstr>, i: nat)
    requires Neutral(probes, code, s) && i < |s|
    ensures s[i] in code && code[s[i]].op != CEE_TAILCALL
    decreases |s|
  {
    if s[0] in code && code[s[0]].op == CEE_NOP {
      if i > 0 { NeutralOps(probes, code, s[1..], i - 1); }
    } else if i >= 4 {
      NeutralOps(probes, code, s[4..], i - 4);
    } else {
      assert s[..4][i] == s[i];
    }
  }

  /** The last node of a block is a `tail.` prefix only if the original instruction is one. */
  lemma LastOpcode(pilr: ILRewriter, l0: Listing<ILInstr>, probes: map<int, nat>, bs: seq<Block<ILInstr>>, k: nat)
    requires Woven(pilr, l0, probes, bs) && k < |bs|
    ensures Last(bs, k).opcode == CEE_TAILCALL ==> OpAt(l0, k) == CEE_TAILCALL
  {
    hide Flatten, Start, Neutral, ClausesInside, LandingNops, ValidAt, ValidClause, ILRewriter.Linked, Distinct, RegionsAt;
    var b := bs[k];
    HomeAt(l0, pilr.View(), probes, bs, k);
    Sound(probes, l0, pilr.View(), [], bs, k);
    if b.post != [] {
      NeutralOps(probes, pilr.View().code, b.post, |b.post| - 1);
    }
  }

  /** The rerouting of branches to the return of a tail call is never reached: the call's offset has been probed. */
  lemma RerouteUnreachable(pilr: ILRewriter, l0: Listing<ILInstr>, probes: map<int, nat>, bs: seq<Block<ILInstr>>, covered: set<int>,
                           methodId: int, x: nat)
    requires Woven(pilr, l0, probes, bs) && Justified(probes, l0, pilr.View(), bs, covered, methodId)
    requires x < |l0.order| && OffsetAt(l0, x) !in covered
    ensures var t := l0.order[x];
            && t.next != null && t.next.prev == t && t.prev != null && !IsTailcallRet(t.next)
  {
    hide Flatten, Start, Reports, OffsetAt, Sane, ValidAt, ValidClause, ILRewriter.Linked, ILRewriter.View;
    assert MustBeCovered(l0, covered, x);
    HomeLinked(pilr, l0, probes, bs, x);
    if x > 0 { LastOpcode(pilr, l0, probes, bs, x - 1); }
  }

  lemma HomeLinked(pilr: ILRewriter, l0: Listing<ILInstr>, probes: map<int, nat>, bs: seq<Block<ILInstr>>, x: nat)
    requires Woven(pilr, l0, probes, bs) && x < |bs|
    ensures var t := l0.order[x]; t.next != null && t.next.prev == t && t.prev == if x == 0 then pilr.head else Last(bs, x - 1)
  {
    hide Flatten, Start, GoodBlock, ClausesInside, LandingNops, ValidBody;
    Links(pilr, l0, probes, bs, x);
    var j := Start(bs, x);
    var ring := pilr.Ring();
    assert ring[j + 1] == pilr.nodes[j];
    assert ring[j + 1].next == ring[j + 2] && ring[j + 2].prev == ring[j + 1];
  }

  /** The fall-through into the targets before `j` is reported. */
  ghost predicate FallsReported(probes: map<int, nat>, l0: Listing<ILInstr>, l: Listing<ILInstr>, bs: seq<Block<ILInstr>>,
                                behind: seq<int>, j: nat, methodId: int)
    requires WellFormed(l0)
  {
    && |bs| == |l0.order| && j <= |behind|
    && (forall g :: 0 <= g < j && 0 <= behind[g] < |bs| && !InTailCall(l0, behind[g]) ==>
          Reports(probes, l, bs[behind[g]], OffsetAt(l0, behind[g]), methodId))
  }

  lemma FallsGrow(probes: map<int, nat>, l0: Listing<ILInstr>, l: Listing<ILInstr>, bs: seq<Block<ILInstr>>, l': Listing<ILInstr>,
                  bs': seq<Block<ILInstr>>, behind: seq<int>, j: nat, methodId: int)
    requires WellFormed(l0) && FallsReported(probes, l0, l, bs, behind, j, methodId) && Grew(probes, l, bs, l', bs')
    ensures FallsReported(probes, l0, l', bs', behind, j, methodId)
  {
    hide Reports, OffsetAt, InTailCall;
    forall g | 0 <= g < j && 0 <= behind[g] < |bs| && !InTailCall(l0, behind[g])
      ensures Reports(probes, l', bs'[behind[g]], OffsetAt(l0, behind[g]), methodId)
    {
      ReportsGrows(probes, l, bs, l', bs', behind[g], OffsetAt(l0, behind[g]), methodId);
    }
  }

  lemma FallsNext(probes: map<int, nat>, l0: Listing<ILInstr>, l: Listing<ILInstr>, bs: seq<Block<ILInstr>>, behind: seq<int>, j: nat, methodId: int)
    requires WellFormed(l0) && FallsReported(probes, l0, l, bs, behind, j, methodId) && j < |behind|
    requires 0 <= behind[j] < |bs| && !InTailCall(l0, behind[j]) ==> Reports(probes, l, bs[behind[j]], OffsetAt(l0, behind[j]), methodId)
    ensures FallsReported(probes, l0, l, bs, behind, j + 1, methodId)
  {
    hide Reports, OffsetAt, InTailCall;
  }

  /** What the loop over the branch targets knows about offsets. */
  ghost predicate OffsetsKnown(l0: Listing<ILInstr>, off: map<ILInstr, int>)
    requires WellFormed(l0)
  {
    forall x :: 0 <= x < |l0.order| ==> OffsetKnown(l0, off, x)
  }

  /** Away from `tail.` prefixes the recorded offset of an instruction is its original one. */
  ghost predicate OffsetKnown(l0: Listing<ILInstr>, off: map<ILInstr, int>, x: nat)
    requires WellFormed(l0) && x < |l0.order|
  {
    l0.order[x] in off && (OpAt(l0, x) != CEE_TAILCALL ==> off[l0.order[x]] == OffsetAt(l0, x))
  }

  /** The probe behind one more instruction that falls through into a branch target. */
  method InsertTargetProbe(pilr: ILRewriter, ins: ProbeInsertion, methodId: int, ghost l0: Listing<ILInstr>, ghost probes: map<int, nat>,
                           ghost bs: seq<Block<ILInstr>>, ghost s: Probes, ghost leave: ProbeCall, ghost x: nat, ghost covered: set<int>,
                           ghost behind: seq<int>, ghost j: nat)
    returns (ghost bs': seq<Block<ILInstr>>)
    requires Woven(pilr, l0, probes, bs) && Known(probes, s) && BehindAt(l0, s, ins, x) && ins.target.offset == OffsetAt(l0, x)
    requires Justified(probes, l0, pilr.View(), bs, covered, methodId) && OffsetAt(l0, x) !in covered
    requires FallsReported(probes, l0, pilr.View(), bs, behind, j, methodId) && j < |behind| && behind[j] == x
    requires Truthful(probes, l0, pilr.View(), bs, s, leave, methodId)
    modifies pilr`nInstrs, pilr`maxStack, pilr`nodes, pilr`clauses
    modifies pilr.head`prev, (set n | n in pilr.nodes)`next, (set n | n in pilr.nodes)`prev, (set n | n in pilr.nodes)`opcode
    ensures Woven(pilr, l0, probes, bs') && Grew(probes, old(pilr.View()), bs, pilr.View(), bs')
    ensures Justified(probes, l0, pilr.View(), bs', covered + {OffsetAt(l0, x)}, methodId)
    ensures FallsReported(probes, l0, pilr.View(), bs', behind, j + 1, methodId)
    ensures Truthful(probes, l0, pilr.View(), bs', s, leave, methodId)
    ensures forall n :: n in pilr.nodes ==> n in old(pilr.nodes) || fresh(n)
    ensures pilr.maxStack == old(pilr.maxStack) + 4 && |pilr.nodes| == |old(pilr.nodes)| + 5
  {
    hide Woven, Grew, Adds, Truthful, Justified, FallsReported, ILRewriter.View, FiresBefore, FiresAfter, OffsetAt, InTailCall, MayFollow, Enterable;
    IsBodyOf(pilr, l0, probes, bs);
    Uncovered(probes, l0, pilr.View(), bs, covered, methodId, x);
    RerouteUnreachable(pilr, l0, probes, bs, covered, methodId, x);
    AloneInFront(pilr, l0, probes, bs, x);
    ghost var l, e := pilr.View(), EventFor(ins.probe, ins.target.offset, methodId);
    bs' := bs;
    var next := ins.target.next;
    if !IsTailcallRet(next) {
      ghost var b := MakeProbeInsertion(pilr, ins, methodId, l0, probes, bs, x);
      bs' := bs[x := b];
      ReportsBy(probes, pilr.View(), b, e, OffsetAt(l0, x), methodId);
      OwnFall(l0, s, leave, probes, bs, ins, x);
      TruthfulGrows(probes, l0, l, bs, pilr.View(), bs', x, e, false, s, leave, methodId);
      JustifiedGrows(probes, l0, l, bs, pilr.View(), bs', covered, methodId, x);
      FallsGrow(probes, l0, l, bs, pilr.View(), bs', behind, j, methodId);
      FallsNext(probes, l0, pilr.View(), bs', behind, j, methodId);
    } else {
      assert false;
    }
  }

  /** Where the instruction has not moved, nothing stands in front of it. */
  lemma AloneInFront(pilr: ILRewriter, l0: Listing<ILInstr>, probes: map<int, nat>, bs: seq<Block<ILInstr>>, k: nat)
    requires Woven(pilr, l0, probes, bs) && k < |bs| == |l0.order| && bs[k].carrier == l0.order[k]
    ensures bs[k].pre == []
  {
    hide Flatten, Start, GoodBlock, LandingNops, ClausesInside, ValidAt, ValidClause, ILRewriter.Linked;
    HomeIs(probes, l0, pilr.View(), bs, k);
    NodesAre(pilr, l0, probes, bs);
    BlockAt(bs, k);
    NodeAt([], bs, k, 0);
    NodeAt([], bs, k, |bs[k].pre|);
    assert [] + Flatten(bs) == Flatten(bs);
    NodesDistinct(pilr);
  }

  lemma OwnFall(l0: Listing<ILInstr>, s: Probes, leave: ProbeCall, probes: map<int, nat>, bs: seq<Block<ILInstr>>, ins: ProbeInsertion, x: nat)
    requires WellFormed(l0) && Applicable(l0, probes, bs, ins, x) && BehindAt(l0, s, ins, x) && !InTailCall(l0, x)
    ensures ins.probe == s.coverage && OwnReport(l0, s, leave, x, s.coverage.addr, OffsetAt(l0, x), false)
  {
  }

  lemma IsBodyOf(pilr: ILRewriter, l0: Listing<ILInstr>, probes: map<int, nat>, bs: seq<Block<ILInstr>>)
    requires Woven(pilr, l0, probes, bs)
    ensures ValidBody(l0) && |bs| == |l0.order| && pilr.head == l0.end && pilr.Valid()
  {
  }

  lemma ReportsBy(probes: map<int, nat>, l: Listing<ILInstr>, b: Block<ILInstr>, e: Event, o: int, methodId: int)
    requires e.args == [o, methodId] && (FiresBefore(probes, l, b, e) || FiresAfter(probes, l, b, e))
    ensures Reports(probes, l, b, o, methodId)
  {
  }

  /** The offsets of the first `j` instructions that fall through into branch targets. */
  function BehindOffsets(l0: Listing<ILInstr>, behind: seq<int>, j: nat): set<int>
    requires WellFormed(l0) && j <= |behind|
  {
    if j == 0 then {}
    else BehindOffsets(l0, behind, j - 1) + if 0 <= behind[j - 1] < |l0.order| then {OffsetAt(l0, behind[j - 1])} else {}
  }

  /** The loop over the branch targets has dealt with the first `j`. */
  ghost predicate Falling(probes: map<int, nat>, l0: Listing<ILInstr>, l: Listing<ILInstr>, bs0: seq<Block<ILInstr>>, l': Listing<ILInstr>,
                          bs: seq<Block<ILInstr>>, behind: seq<int>, covered0: set<int>, covered: set<int>, s: Probes, leave: ProbeCall,
                          methodId: int, j: nat) {
    && WellFormed(l0) && |bs| == |l0.order| && j <= |behind| && Grew(probes, l, bs0, l', bs)
    && Justified(probes, l0, l', bs, covered, methodId) && FallsReported(probes, l0, l', bs, behind, j, methodId)
    && Truthful(probes, l0, l', bs, s, leave, methodId) && covered == covered0 + BehindOffsets(l0, behind, j)
  }

  lemma FallingFacts(probes: map<int, nat>, l0: Listing<ILInstr>, l: Listing<ILInstr>, bs0: seq<Block<ILInstr>>, l': Listing<ILInstr>,
                     bs: seq<Block<ILInstr>>, behind: seq<int>, covered0: set<int>, covered: set<int>, s: Probes, leave: ProbeCall, methodId: int, j: nat)
    requires Falling(probes, l0, l, bs0, l', bs, behind, covered0, covered, s, leave, methodId, j)
    ensures WellFormed(l0) && Justified(probes, l0, l', bs, covered, methodId) && Truthful(probes, l0, l', bs, s, leave, methodId)
    ensures FallsReported(probes, l0, l', bs, behind, j, methodId)
  {
  }

  lemma FallingSkips(probes: map<int, nat>, l0: Listing<ILInstr>, l: Listing<ILInstr>, bs0: seq<Block<ILInstr>>, l': Listing<ILInstr>,
                     bs: seq<Block<ILInstr>>, behind: seq<int>, covered0: set<int>, covered: set<int>, s: Probes, leave: ProbeCall, methodId: int, j: nat)
    requires Falling(probes, l0, l, bs0, l', bs, behind, covered0, covered, s, leave, methodId, j) && j < |behind|
    requires 0 <= behind[j] ==> behind[j] < |bs| && OffsetAt(l0, behind[j]) in covered
    ensures Falling(probes, l0, l, bs0, l', bs, behind, covered0, covered, s, leave, methodId, j + 1)
  {
    hide Grew, Justified, FallsReported, Truthful, OffsetAt;
    AlreadyReported(probes, l0, l', bs, covered, methodId, behind, j);
    assert covered0 + BehindOffsets(l0, behind, j + 1) == covered;
  }

  lemma FallingNext(probes: map<int, nat>, l0: Listing<ILInstr>, l: Listing<ILInstr>, bs0: seq<Block<ILInstr>>, l': Listing<ILInstr>,
                    bs: seq<Block<ILInstr>>, l'': Listing<ILInstr>, bs'': seq<Block<ILInstr>>, behind: seq<int>,
                    covered0: set<int>, covered: set<int>, s: Probes, leave: ProbeCall, methodId: int, j: nat)
    requires Falling(probes, l0, l, bs0, l', bs, behind, covered0, covered, s, leave, methodId, j) && j < |behind| && 0 <= behind[j] < |l0.order|
    requires Grew(probes, l', bs, l'', bs'') && FallsReported(probes, l0, l'', bs'', behind, j + 1, methodId)
    requires Justified(probes, l0, l'', bs'', covered + {OffsetAt(l0, behind[j])}, methodId) && Truthful(probes, l0, l'', bs'', s, leave, methodId)
    ensures Falling(probes, l0, l, bs0, l'', bs'', behind, covered0, covered + {OffsetAt(l0, behind[j])}, s, leave, methodId, j + 1)
  {
    hide Grew, Justified, FallsReported, OffsetAt;
    GrewTwice(probes, l, bs0, l', bs, l'', bs'');
    assert covered0 + BehindOffsets(l0, behind, j + 1) == covered + {OffsetAt(l0, behind[j])};
  }

  /** Adds the probes for the fall-through into branch targets, where none of the first probes is in place already. */
  method InsertTargetProbes(pilr: ILRewriter, targets: seq<ProbeInsertion>, covered0: set<int>, methodId: int,
                            ghost l0: Listing<ILInstr>, ghost probes: map<int, nat>, ghost bs0: seq<Block<ILInstr>>, ghost s: Probes,
                            ghost leave: ProbeCall,
                            ghost behind: seq<int>, ghost off: map<ILInstr, int>)
    returns (ghost bs: seq<Block<ILInstr>>, ghost covered: set<int>)
    requires Woven(pilr, l0, probes, bs0) && Known(probes, s) && |behind| == |targets|
    requires forall j :: 0 <= j < |targets| ==> BehindAt(l0, s, targets[j], behind[j])
    requires Justified(probes, l0, pilr.View(), bs0, covered0, methodId) && OffsetsKnown(l0, off)
    requires Truthful(probes, l0, pilr.View(), bs0, s, leave, methodId)
    requires forall n :: n in off ==> n.offset == off[n]
    modifies pilr`nInstrs, pilr`maxStack, pilr`nodes, pilr`clauses
    modifies pilr.head`prev, (set n | n in pilr.nodes)`next, (set n | n in pilr.nodes)`prev, (set n | n in pilr.nodes)`opcode
    ensures Woven(pilr, l0, probes, bs)
    ensures Falling(probes, l0, old(pilr.View()), bs0, pilr.View(), bs, behind, covered0, covered, s, leave, methodId, |behind|)
    ensures forall n :: n in pilr.nodes ==> n in old(pilr.nodes) || fresh(n)
    ensures pilr.maxStack == old(pilr.maxStack) + 4 * (|covered| - |covered0|)
    ensures |pilr.nodes| == |old(pilr.nodes)| + 5 * (|covered| - |covered0|)
  {
    hide Woven, Grew, Falling, Truthful, Justified, FallsReported, ILRewriter.View, BehindAt, OffsetAt, InTailCall, ValidBody, WellFormed,
         OffsetsKnown, Known;
    var coveredInstructions := covered0;
    covered, bs := covered0, bs0;
    ghost var l := pilr.View();
    IsBodyOf(pilr, l0, probes, bs);
    assert WellFormed(l0) by { BodyWellFormed(l0); }
    FallingStarts(probes, l0, l, bs0, behind, covered0, s, leave, methodId);
    for j := 0 to |targets|
      invariant Woven(pilr, l0, probes, bs) && coveredInstructions == covered
      invariant Falling(probes, l0, l, bs0, pilr.View(), bs, behind, covered0, covered, s, leave, methodId, j)
      invariant forall n :: n in off ==> n.offset == off[n]
      invariant forall n :: n in pilr.nodes ==> n in old(pilr.nodes) || fresh(n)
      invariant pilr.maxStack == old(pilr.maxStack) + 4 * (|covered| - |covered0|)
      invariant |pilr.nodes| == |old(pilr.nodes)| + 5 * (|covered| - |covered0|)
    {
      var target := targets[j].target;
      IsBodyOf(pilr, l0, probes, bs);
      TargetFacts(l0, s, targets[j], behind[j], off);
      if target == pilr.head || target.offset in coveredInstructions {
        FallingSkips(probes, l0, l, bs0, pilr.View(), bs, behind, covered0, covered, s, leave, methodId, j);
      } else {
        ghost var l', bs', before := pilr.View(), bs, covered;
        coveredInstructions := coveredInstructions + {target.offset};
        covered := covered + {target.offset};
        FallingFacts(probes, l0, l, bs0, l', bs', behind, covered0, before, s, leave, methodId, j);
        bs := InsertTargetProbe(pilr, targets[j], methodId, l0, probes, bs', s, leave, behind[j], before, behind, j);
        FallingNext(probes, l0, l, bs0, l', bs', pilr.View(), bs, behind, covered0, before, s, leave, methodId, j);
      }
    }
  }

  lemma GrewTwice(probes: map<int, nat>, l: Listing<ILInstr>, bs: seq<Block<ILInstr>>, l': Listing<ILInstr>, bs': seq<Block<ILInstr>>,
                  l'': Listing<ILInstr>, bs'': seq<Block<ILInstr>>)
    requires Grew(probes, l, bs, l', bs') && Grew(probes, l', bs', l'', bs'')
    ensures Grew(probes, l, bs, l'', bs'')
  {
    hide FiresBefore, FiresAfter;
  }

  lemma FallingStarts(probes: map<int, nat>, l0: Listing<ILInstr>, l: Listing<ILInstr>, bs: seq<Block<ILInstr>>, behind: seq<int>,
                      covered: set<int>, s: Probes, leave: ProbeCall, methodId: int)
    requires WellFormed(l0) && |bs| == |l0.order| && Justified(probes, l0, l, bs, covered, methodId) && Truthful(probes, l0, l, bs, s, leave, methodId)
    ensures Falling(probes, l0, l, bs, l, bs, behind, covered, covered, s, leave, methodId, 0)
  {
    hide Justified, Truthful, Reports;
    assert covered + {} == covered;
  }

  lemma TargetFacts(l0: Listing<ILInstr>, s: Probes, ins: ProbeInsertion, x: int, off: map<ILInstr, int>)
    requires ValidBody(l0) && BehindAt(l0, s, ins, x) && OffsetsKnown(l0, off)
    ensures ins.target == l0.end <==> x == -1
    ensures x >= 0 ==> x < |l0.order| && ins.target == l0.order[x] && ins.target in off && off[ins.target] == OffsetAt(l0, x)
    ensures !ins.isBeforeInstr && x >= -1
  {
    hide ValidAt, ValidClause, OffsetAt;
    if x >= 0 { assert OffsetKnown(l0, off, x); }
  }

  lemma AlreadyReported(probes: map<int, nat>, l0: Listing<ILInstr>, l: Listing<ILInstr>, bs: seq<Block<ILInstr>>, covered: set<int>, methodId: int,
                        behind: seq<int>, j: nat)
    requires WellFormed(l0) && Justified(probes, l0, l, bs, covered, methodId)
    requires FallsReported(probes, l0, l, bs, behind, j, methodId) && j < |behind|
    requires 0 <= behind[j] ==> behind[j] < |bs| && OffsetAt(l0, behind[j]) in covered
    ensures FallsReported(probes, l0, l, bs, behind, j + 1, methodId)
  {
    hide Reports, OffsetAt, InTailCall;
    FallsNext(probes, l0, l, bs, behind, j, methodId);
  }

  // ---------- From the scan to the insertions ----------

  /** What the offsets are once the scan is over. */
  ghost predicate ScannedOffset(l0: Listing<ILInstr>, bs: seq<Block<ILInstr>>, off: map<ILInstr, int>, k: nat)
    requires WellFormed(l0) && k < |l0.order| == |bs|
  {
    && l0.order[k] in off && bs[k].carrier in off
    && (if OpAt(l0, k) == CEE_TAILCALL then
          && k + 2 <= |l0.order|
          && off[l0.order[k]] == OffsetAt(l0, k + 2) && off[bs[k].carrier] == OffsetAt(l0, k + 1)
        else off[l0.order[k]] == OffsetAt(l0, k) && bs[k].carrier == l0.order[k])
  }

  lemma AfterScan(pilr: ILRewriter, l0: Listing<ILInstr>, probes: map<int, nat>, bs: seq<Block<ILInstr>>, off: map<ILInstr, int>)
    requires Passed(pilr, l0, probes, bs, |l0.order|)
    requires off.Keys == (set n | n in pilr.nodes) && forall n :: n in off ==> off[n] == n.offset
    ensures Woven(pilr, l0, probes, bs)
    ensures forall k :: 0 <= k < |l0.order| ==> ScannedOffset(l0, bs, off, k)
  {
    hide Flatten, Start, ClausesInside, ILRewriter.Linked, ValidAt, ValidClause, Instrumented, OffsetAt;
    OthersApart0(pilr, l0, probes, bs);
    forall k | 0 <= k < |bs| ensures LandsOnNop(pilr.View(), bs[k]) {
      ScanLands(l0, pilr.View(), probes, bs, k);
    }
    forall k | 0 <= k < |l0.order| ensures ScannedOffset(l0, bs, off, k) {
      assert OffsetsOf(l0, bs, |l0.order|, k);
    }
  }

  lemma OthersApart0(pilr: ILRewriter, l0: Listing<ILInstr>, probes: map<int, nat>, bs: seq<Block<ILInstr>>)
    requires Instrumented(probes, l0, pilr.View(), [], bs)
    ensures forall k :: 0 <= k < |bs| ==> bs[k].carrier in pilr.nodes && l0.order[k] in pilr.nodes
  {
    hide Instrumented;
    if bs != [] { OthersApart(l0, pilr.View(), probes, bs, 0); }
  }

  lemma ScanLands(l0: Listing<ILInstr>, l: Listing<ILInstr>, probes: map<int, nat>, bs: seq<Block<ILInstr>>, k: nat)
    requires Instrumented(probes, l0, l, [], bs) && ScanShape(l0, bs, |l0.order|) && k < |bs|
    ensures LandsOnNop(l, bs[k])
  {
    hide Flatten, Start, GoodBlock;
    Sound(probes, l0, l, [], bs, k);
  }

  /** The plan of the scan is ready to be carried out. */
  lemma ReadyToInsert(l0: Listing<ILInstr>, probes: map<int, nat>, s: Probes, leave: ProbeCall, bs: seq<Block<ILInstr>>,
                      priority: seq<ProbeInsertion>, at: seq<nat>, more: seq<ProbeInsertion>, more': seq<nat>, off: map<ILInstr, int>)
    requires ValidBody(l0) && ScanShape(l0, bs, |l0.order|) && PlanOk(l0, probes, s, leave, bs, priority, at, |l0.order|)
    requires |more| == |more'|
    requires forall j :: 0 <= j < |more| ==>
               Applicable(l0, probes, bs, more[j], more'[j]) && more[j].isBeforeInstr && more[j].target == l0.order[more'[j]]
    requires forall k :: 0 <= k < |l0.order| ==> ScannedOffset(l0, bs, off, k)
    ensures Orderly(l0, priority + more, at + more') && Todo(l0, probes, bs, priority + more, at + more', 0)
    ensures forall h :: 0 <= h < |priority + more| ==> (priority + more)[h].target in off
  {
    hide ValidAt, ValidClause, Distinct, PlannedAt, TwoArguments;
    var p, a := priority + more, at + more';
    forall h | 0 <= h < |p|
      ensures a[h] < |l0.order| && Applicable(l0, probes, bs, p[h], a[h])
      ensures !p[h].isBeforeInstr ==> bs[a[h]].pre == []
      ensures p[h].target in off
    {
      if h < |priority| {
        assert Applicable(l0, probes, bs, priority[h], at[h]);
      } else {
        assert Applicable(l0, probes, bs, more[h - |priority|], more'[h - |priority|]);
      }
      assert ScannedOffset(l0, bs, off, a[h]);
    }
  }

  /** An exception handler starts a block of its own. */
  method HandlerProbes(pilr: ILRewriter, s: Probes, ghost l0: Listing<ILInstr>, ghost probes: map<int, nat>, ghost bs: seq<Block<ILInstr>>)
    returns (more: seq<ProbeInsertion>, ghost at: seq<nat>)
    requires ValidBody(l0) && pilr.clauses == l0.clauses && |bs| == |l0.order| && Known(probes, s)
    ensures |more| == |at| == |l0.clauses|
    ensures forall j :: 0 <= j < |more| ==>
              && l0.clauses[j].handlerBegin in l0.order && at[j] == Pos(l0.order, l0.clauses[j].handlerBegin)
              && more[j] == ProbeInsertion(l0.clauses[j].handlerBegin, null, s.throw, true)
              && Applicable(l0, probes, bs, more[j], at[j])
    ensures forall j :: 0 <= j < |more| ==> HandlerStarts(l0, at[j])
  {
    hide ValidAt, Distinct;
    more, at := [], [];
    for i := 0 to |pilr.clauses|
      invariant |more| == |at| == i
      invariant forall j :: 0 <= j < |more| ==>
                  && l0.clauses[j].handlerBegin in l0.order && at[j] == Pos(l0.order, l0.clauses[j].handlerBegin)
                  && more[j] == ProbeInsertion(l0.clauses[j].handlerBegin, null, s.throw, true)
                  && Applicable(l0, probes, bs, more[j], at[j])
      invariant forall j :: 0 <= j < |more| ==> HandlerStarts(l0, at[j])
    {
      assert ValidClause(l0, l0.clauses[i]);
      more := more + [ProbeInsertion(pilr.clauses[i].handlerBegin, null, s.throw, true)];
      at := at + [Pos(l0.order, l0.clauses[i].handlerBegin)];
    }
  }

  /** What the insertions have been made for. */
  ghost predicate Carried(l0: Listing<ILInstr>, probes: map<int, nat>, s: Probes, leave: ProbeCall, bs1: seq<Block<ILInstr>>,
                          priority: seq<ProbeInsertion>, at: seq<nat>, more: seq<ProbeInsertion>, more': seq<nat>, off: map<ILInstr, int>)
    requires ValidBody(l0)
  {
    && |bs1| == |l0.order| && PlanOk(l0, probes, s, leave, bs1, priority, at, |l0.order|) && |more| == |more'|
    && (forall k :: 0 <= k < |l0.order| ==> ScannedOffset(l0, bs1, off, k))
    && (forall h :: 0 <= h < |priority + more| ==> Applicable(l0, probes, bs1, (priority + more)[h], (at + more')[h]))
  }

  /** The offset a planned probe reports. */
  lemma ProbedOffset(l0: Listing<ILInstr>, probes: map<int, nat>, bs1: seq<Block<ILInstr>>, off: map<ILInstr, int>, ins: ProbeInsertion, k: nat)
    requires ValidBody(l0) && Applicable(l0, probes, bs1, ins, k) && ScannedOffset(l0, bs1, off, k)
    ensures ins.target in off
    ensures OpAt(l0, k) != CEE_TAILCALL ==> off[ins.target] == OffsetAt(l0, k)
    ensures OpAt(l0, k) == CEE_TAILCALL ==>
              k + 2 < |l0.order| && (off[ins.target] == OffsetAt(l0, k + 1) || off[ins.target] == OffsetAt(l0, k + 2))
  {
    hide ValidClause, MayPrecede, MayFollow, TwoArguments, OffsetAt, Distinct;
    assert ValidAt(l0, k);
  }

  lemma ReportedWhereProbed(probes: map<int, nat>, l0: Listing<ILInstr>, l: Listing<ILInstr>, bs: seq<Block<ILInstr>>, s: Probes, leave: ProbeCall,
                            bs1: seq<Block<ILInstr>>, priority: seq<ProbeInsertion>, at: seq<nat>, more: seq<ProbeInsertion>, more': seq<nat>,
                            off: map<ILInstr, int>, covered: set<int>, methodId: int, x: nat)
    requires ValidBody(l0) && Carried(l0, probes, s, leave, bs1, priority, at, more, more', off)
    requires Done(probes, l, bs, priority + more, at + more', off, methodId, |priority + more|)
    requires Recorded(priority + more, off, covered, |priority + more|)
    requires x < |l0.order| == |bs| && !InTailCall(l0, x) && OffsetAt(l0, x) in covered
    ensures Reports(probes, l, bs[x], OffsetAt(l0, x), methodId)
  {
    hide Reports, OffsetAt, FiresBefore, FiresAfter, Applicable, ScannedOffset, PlanOk, ValidAt, ValidClause, Distinct;
    var p, a := priority + more, at + more';
    var h :| 0 <= h < |p| && HasOffset(p[h], off, OffsetAt(l0, x));
    assert DoneOne(probes, l, bs, p[h], a[h], off, methodId);
    assert Applicable(l0, probes, bs1, p[h], a[h]);
    ApplicableIn(l0, probes, bs1, p[h], a[h]);
    assert ScannedOffset(l0, bs1, off, a[h]);
    ProbedOffset(l0, probes, bs1, off, p[h], a[h]);
    if OpAt(l0, a[h]) == CEE_TAILCALL {
      if OffsetAt(l0, x) == OffsetAt(l0, a[h] + 1) { OffsetsDiffer(l0, x, a[h] + 1); } else { OffsetsDiffer(l0, x, a[h] + 2); }
      assert false;
    }
    OffsetsDiffer(l0, x, a[h]);
    ReportsBy(probes, l, bs[x], EventFor(p[h].probe, off[p[h].target], methodId), OffsetAt(l0, x), methodId);
  }

  lemma ApplicableIn(l0: Listing<ILInstr>, probes: map<int, nat>, bs: seq<Block<ILInstr>>, ins: ProbeInsertion, k: nat)
    requires WellFormed(l0) && Applicable(l0, probes, bs, ins, k)
    ensures k < |l0.order| == |bs|
  {
  }

  /** A planned insertion puts its offset into the set. */
  lemma PlannedIsCovered(priority: seq<ProbeInsertion>, at: seq<nat>, more: seq<ProbeInsertion>, more': seq<nat>, off: map<ILInstr, int>,
                         covered: set<int>,
                         k: nat, target: ILInstr, probe: ProbeCall, before: bool)
    requires Has(priority, at, k, target, probe, before) && |more| == |more'| && target in off
    requires Recorded(priority + more, off, covered, |priority + more|)
    ensures off[target] in covered
  {
    var j :| 0 <= j < |priority| && at[j] == k && IsFor(priority[j], target, probe, before);
    assert (priority + more)[j] == priority[j];
  }

  lemma CoveredWhereDue(probes: map<int, nat>, l0: Listing<ILInstr>, s: Probes, leave: ProbeCall,
                        bs1: seq<Block<ILInstr>>, priority: seq<ProbeInsertion>, at: seq<nat>, more: seq<ProbeInsertion>, more': seq<nat>,
                        off: map<ILInstr, int>, covered: set<int>, x: nat)
    requires ValidBody(l0) && Carried(l0, probes, s, leave, bs1, priority, at, more, more', off)
    requires Recorded(priority + more, off, covered, |priority + more|) && x < |l0.order|
    ensures MustBeCovered(l0, covered, x)
  {
    hide OffsetAt, Applicable, ValidAt, ValidClause, Distinct, Has, Recorded;
    if OpAt(l0, x) == CEE_SWITCH {
      assert PlannedAt(l0, s, leave, bs1, priority, at, x) && ScannedOffset(l0, bs1, off, x);
      PlannedIsCovered(priority, at, more, more', off, covered, x, l0.order[x], s.branch, true);
    }
    if OpAt(l0, x - 1) == CEE_TAILCALL {
      assert PlannedAt(l0, s, leave, bs1, priority, at, x - 1) && ScannedOffset(l0, bs1, off, x - 1);
      PlannedIsCovered(priority, at, more, more', off, covered, x - 1, bs1[x - 1].carrier, s.tailcall, true);
    }
    if OpAt(l0, x - 2) == CEE_TAILCALL {
      assert PlannedAt(l0, s, leave, bs1, priority, at, x - 2) && ScannedOffset(l0, bs1, off, x - 2);
      PlannedIsCovered(priority, at, more, more', off, covered, x - 2, l0.order[x - 2], s.coverage, true);
    }
  }

  /** The set of probed offsets means what the loop over the branch targets takes it to mean. */
  lemma FirstProbesJustify(probes: map<int, nat>, l0: Listing<ILInstr>, l: Listing<ILInstr>, bs: seq<Block<ILInstr>>, s: Probes, leave: ProbeCall,
                           bs1: seq<Block<ILInstr>>, priority: seq<ProbeInsertion>, at: seq<nat>, more: seq<ProbeInsertion>, more': seq<nat>,
                           off: map<ILInstr, int>, covered: set<int>, methodId: int, moved: set<nat>)
    requires ValidBody(l0) && Carried(l0, probes, s, leave, bs1, priority, at, more, more', off) && |bs| == |l0.order|
    requires Done(probes, l, bs, priority + more, at + more', off, methodId, |priority + more|)
    requires Recorded(priority + more, off, covered, |priority + more|)
    requires MovedSoFar(l0, bs, moved) && MovedBy(priority + more, at + more', moved, |priority + more|)
    ensures Justified(probes, l0, l, bs, covered, methodId) && OffsetsKnown(l0, off)
  {
    hide Reports, OffsetAt, InTailCall, Done, Recorded, MustBeCovered, MovedIsCovered, MovedSoFar, MovedBy, ValidAt, ValidClause, Distinct, PlanOk;
    forall x | 0 <= x < |bs| && !InTailCall(l0, x) && OffsetAt(l0, x) in covered
      ensures Reports(probes, l, bs[x], OffsetAt(l0, x), methodId)
    {
      ReportedWhereProbed(probes, l0, l, bs, s, leave, bs1, priority, at, more, more', off, covered, methodId, x);
    }
    forall x | 0 <= x < |bs| ensures MustBeCovered(l0, covered, x) {
      CoveredWhereDue(probes, l0, s, leave, bs1, priority, at, more, more', off, covered, x);
    }
    forall x | 0 <= x < |bs| ensures MovedIsCovered(l0, bs, covered, x) {
      MovedWhereProbed(l0, probes, bs, s, leave, bs1, priority, at, more, more', off, covered, moved, x);
    }
    forall x | 0 <= x < |l0.order| ensures OffsetKnown(l0, off, x) {
      assert ScannedOffset(l0, bs1, off, x);
    }
  }

  lemma MovedWhereProbed(l0: Listing<ILInstr>, probes: map<int, nat>, bs: seq<Block<ILInstr>>, s: Probes, leave: ProbeCall,
                         bs1: seq<Block<ILInstr>>, priority: seq<ProbeInsertion>, at: seq<nat>, more: seq<ProbeInsertion>, more': seq<nat>,
                         off: map<ILInstr, int>, covered: set<int>, moved: set<nat>, x: nat)
    requires ValidBody(l0) && Carried(l0, probes, s, leave, bs1, priority, at, more, more', off)
    requires Recorded(priority + more, off, covered, |priority + more|) && x < |l0.order| == |bs|
    requires MovedSoFar(l0, bs, moved) && MovedBy(priority + more, at + more', moved, |priority + more|)
    ensures MovedIsCovered(l0, bs, covered, x)
  {
    hide OffsetAt, Applicable, ScannedOffset, PlanOk, ValidAt, ValidClause, Distinct, MovedBy;
    var p, a := priority + more, at + more';
    assert MovedAt(l0, bs, moved, x);
    if bs[x].carrier != l0.order[x] && OpAt(l0, x) != CEE_TAILCALL {
      var h := MovedFor(p, a, moved, x);
      assert Applicable(l0, probes, bs1, p[h], a[h]);
      assert ScannedOffset(l0, bs1, off, a[h]);
      ProbedOffset(l0, probes, bs1, off, p[h], a[h]);
    }
  }

  // ---------- The rewritten method ----------

  /** The probes that the instruction at `k` calls for are in place. */
  ghost predicate CoveredAt(probes: map<int, nat>, l0: Listing<ILInstr>, l: Listing<ILInstr>, bs: seq<Block<ILInstr>>,
                            s: Probes, leave: ProbeCall, methodId: int, k: nat)
    requires WellFormed(l0) && k < |l0.order| == |bs|
  {
    && (var d, site := DemandAt(l0, s, leave, k), Site(l0, k);
        d.Probe? ==> Fires(probes, l, bs[site], EventFor(d.probe, OffsetAt(l0, site), methodId), d.before))
    && (OpAt(l0, k) == CEE_TAILCALL ==>
          && k + 2 < |l0.order|
          && FiresBefore(probes, l, bs[k], EventFor(s.tailcall, OffsetAt(l0, k + 1), methodId))
          && FiresBefore(probes, l, bs[k], EventFor(s.coverage, OffsetAt(l0, k + 2), methodId)))
  }

  /** The fall-through into the instruction at `t` is reported, if some branch refers to it. */
  ghost predicate FallCovered(probes: map<int, nat>, l0: Listing<ILInstr>, l: Listing<ILInstr>, bs: seq<Block<ILInstr>>, methodId: int, t: nat)
    requires WellFormed(l0) && t < |l0.order| == |bs|
  {
    IsBranchTarget(l0, t) && t > 0 && !InTailCall(l0, t - 1) ==>
      Reports(probes, l, bs[t - 1], OffsetAt(l0, t - 1), methodId)
  }

  /** The entry of a handler is reported. */
  ghost predicate HandlerCovered(probes: map<int, nat>, l0: Listing<ILInstr>, l: Listing<ILInstr>, bs: seq<Block<ILInstr>>, s: Probes,
                                 methodId: int, h: nat)
    requires WellFormed(l0) && h < |l0.order| == |bs|
  {
    FiresBefore(probes, l, bs[h], EventFor(s.throw, OffsetKept(l0, h), methodId))
  }

  /** The offset that the node of an instruction has once the scan has passed it: a `tail.` prefix takes that of the return. */
  function OffsetKept(l0: Listing<ILInstr>, h: nat): int
    requires WellFormed(l0) && h < |l0.order|
  {
    if OpAt(l0, h) == CEE_TAILCALL && h + 2 < |l0.order| then OffsetAt(l0, h + 2) else OffsetAt(l0, h)
  }

  /** Everything that ends a basic block outside tail calls is reported under its original offset, and so are tail calls and
      handlers.  The return of a tail call is reported with its `tail.` prefix, not where it stands. */
  ghost predicate AllCovered(probes: map<int, nat>, l0: Listing<ILInstr>, l: Listing<ILInstr>, bs: seq<Block<ILInstr>>,
                             s: Probes, leave: ProbeCall, methodId: int)
    requires WellFormed(l0)
  {
    && |bs| == |l0.order|
    && (forall k :: 0 <= k < |bs| ==> CoveredAt(probes, l0, l, bs, s, leave, methodId, k))
    && (forall t :: 0 <= t < |bs| ==> FallCovered(probes, l0, l, bs, methodId, t))
    && (forall i :: 0 <= i < |l0.clauses| && l0.clauses[i].handlerBegin in l0.order ==>
          HandlerCovered(probes, l0, l, bs, s, methodId, Pos(l0.order, l0.clauses[i].handlerBegin)))
  }

  lemma FiredAsPlanned(probes: map<int, nat>, l: Listing<ILInstr>, bs: seq<Block<ILInstr>>,
                       priority: seq<ProbeInsertion>, at: seq<nat>, more: seq<ProbeInsertion>, more': seq<nat>, off: map<ILInstr, int>, methodId: int,
                       k: nat, target: ILInstr, probe: ProbeCall, before: bool)
    requires Has(priority, at, k, target, probe, before) && |more| == |more'|
    requires Done(probes, l, bs, priority + more, at + more', off, methodId, |priority + more|)
    ensures k < |bs| && target in off && Fires(probes, l, bs[k], EventFor(probe, off[target], methodId), before)
  {
    hide Fires;
    var j :| 0 <= j < |priority| && at[j] == k && IsFor(priority[j], target, probe, before);
    assert (priority + more)[j] == priority[j] && (at + more')[j] == at[j];
    assert DoneOne(probes, l, bs, (priority + more)[j], (at + more')[j], off, methodId);
  }

  lemma CoveredByPlan(probes: map<int, nat>, l0: Listing<ILInstr>, l: Listing<ILInstr>, bs: seq<Block<ILInstr>>, s: Probes, leave: ProbeCall,
                      bs1: seq<Block<ILInstr>>, priority: seq<ProbeInsertion>, at: seq<nat>, more: seq<ProbeInsertion>, more': seq<nat>,
                      off: map<ILInstr, int>, methodId: int, k: nat)
    requires ValidBody(l0) && Carried(l0, probes, s, leave, bs1, priority, at, more, more', off) && k < |bs| == |l0.order|
    requires Done(probes, l, bs, priority + more, at + more', off, methodId, |priority + more|)
    ensures CoveredAt(probes, l0, l, bs, s, leave, methodId, k)
  {
    hide OffsetAt, Applicable, ValidClause, Distinct, Has, Done, FiresBefore, FiresAfter;
    assert PlannedAt(l0, s, leave, bs1, priority, at, k) && ScannedOffset(l0, bs1, off, k);
    var d, site := DemandAt(l0, s, leave, k), Site(l0, k);
    assert ValidAt(l0, k);
    if d.Probe? {
      FiredAsPlanned(probes, l, bs, priority, at, more, more', off, methodId, site, l0.order[site], d.probe, d.before);
      if site != k { assert ValidAt(l0, site); }
      assert ScannedOffset(l0, bs1, off, site);
    }
    if OpAt(l0, k) == CEE_TAILCALL {
      FiredAsPlanned(probes, l, bs, priority, at, more, more', off, methodId, k, bs1[k].carrier, s.tailcall, true);
      FiredAsPlanned(probes, l, bs, priority, at, more, more', off, methodId, k, l0.order[k], s.coverage, true);
    }
  }

  lemma CoveredGrows(probes: map<int, nat>, l0: Listing<ILInstr>, l: Listing<ILInstr>, bs: seq<Block<ILInstr>>, l': Listing<ILInstr>,
                     bs': seq<Block<ILInstr>>, s: Probes, leave: ProbeCall, methodId: int, k: nat)
    requires WellFormed(l0) && k < |l0.order| == |bs| && Grew(probes, l, bs, l', bs')
    requires CoveredAt(probes, l0, l, bs, s, leave, methodId, k)
    ensures CoveredAt(probes, l0, l', bs', s, leave, methodId, k)
  {
    hide OffsetAt, FiresBefore, FiresAfter, Distinct;
  }

  lemma HandlersByPlan(probes: map<int, nat>, l0: Listing<ILInstr>, l: Listing<ILInstr>, bs: seq<Block<ILInstr>>, s: Probes, leave: ProbeCall,
                       bs1: seq<Block<ILInstr>>, priority: seq<ProbeInsertion>, at: seq<nat>, more: seq<ProbeInsertion>, more': seq<nat>,
                       off: map<ILInstr, int>, methodId: int, i: nat)
    requires ValidBody(l0) && Carried(l0, probes, s, leave, bs1, priority, at, more, more', off) && |bs| == |l0.order|
    requires Done(probes, l, bs, priority + more, at + more', off, methodId, |priority + more|)
    requires i < |more| == |l0.clauses| && l0.clauses[i].handlerBegin in l0.order
    requires more'[i] == Pos(l0.order, l0.clauses[i].handlerBegin) && more[i] == ProbeInsertion(l0.clauses[i].handlerBegin, null, s.throw, true)
    ensures HandlerCovered(probes, l0, l, bs, s, methodId, Pos(l0.order, l0.clauses[i].handlerBegin))
  {
    hide OffsetAt, Applicable, ValidClause, Distinct, FiresBefore, FiresAfter, PlanOk;
    var p, a, h := priority + more, at + more', |priority| + i;
    assert |at| == |priority| by { PlanLengths(l0, probes, s, leave, bs1, priority, at); }
    assert p[h] == more[i] && a[h] == more'[i];
    assert DoneOne(probes, l, bs, p[h], a[h], off, methodId);
    assert ScannedOffset(l0, bs1, off, a[h]);
    assert ValidAt(l0, a[h]);
  }

  lemma PlanLengths(l0: Listing<ILInstr>, probes: map<int, nat>, s: Probes, leave: ProbeCall, bs: seq<Block<ILInstr>>,
                    priority: seq<ProbeInsertion>, at: seq<nat>)
    requires WellFormed(l0) && PlanOk(l0, probes, s, leave, bs, priority, at, |l0.order|)
    ensures |at| == |priority|
  {
  }

  lemma FallsByPlan(probes: map<int, nat>, l0: Listing<ILInstr>, l: Listing<ILInstr>, bs: seq<Block<ILInstr>>, behind: seq<int>, methodId: int, t: nat)
    requires WellFormed(l0) && t < |l0.order| == |bs| && FallsReported(probes, l0, l, bs, behind, |behind|, methodId)
    requires forall q: nat :: q < |l0.order| ==> TargetsPlanned(l0, behind, q)
    ensures FallCovered(probes, l0, l, bs, methodId, t)
  {
    hide Reports, OffsetAt, InTailCall, Distinct;
    if IsBranchTarget(l0, t) && t > 0 && !InTailCall(l0, t - 1) {
      var q: nat :| Refers(l0, q, t);
      assert TargetsPlanned(l0, behind, q);
      var g :| 0 <= g < |behind| && behind[g] == t - 1;
      assert 0 <= behind[g] < |bs|;
    }
  }

  /** Gives every instruction its byte offset. */
  method CountOffsets(pilr: ILRewriter)
    requires pilr.Valid()
    modifies (set n | n in pilr.nodes)`offset
    ensures WellFormed(pilr.View())
    ensures forall k :: 0 <= k < |pilr.nodes| ==> pilr.nodes[k].offset == OffsetAt(pilr.View(), k)
  {
    hide Chained, Distinct, ILRewriter.View, ILRewriter.Linked, OffsetAt, OpcodeSize, OperandSize;
    ghost var l, i := pilr.View(), 0;
    ViewNow(pilr);
    var offset := 0;
    var instr := FirstOf(pilr);
    FirstIs(pilr);
    OffsetsStart(l);
    while instr != pilr.head
      invariant pilr.Linked() && pilr.View() == l
      invariant i <= |l.order| && instr == (if i == |l.order| then pilr.head else l.order[i]) && offset == OffsetAt(l, i)
      invariant forall k :: 0 <= k < i ==> l.order[k].offset == OffsetAt(l, k)
      decreases |l.order| - i
    {
      Neighbours(pilr, i);
      OthersDiffer(pilr.nodes, i);
      NextOffset(l, i);
      instr.offset := offset;
      offset := offset + OpcodeSize(instr.opcode);
      offset := offset + OperandSize(instr.opcode);
      instr := instr.next;
      i := i + 1;
    }
  }

  lemma OffsetsStart(l: Listing<ILInstr>)
    requires WellFormed(l)
    ensures OffsetAt(l, 0) == 0
  {
  }

  lemma NextOffset(l: Listing<ILInstr>, i: nat)
    requires WellFormed(l) && i < |l.order|
    ensures OffsetAt(l, i + 1) == OffsetAt(l, i) + OpcodeSize(OpAt(l, i)) + OperandSize(OpAt(l, i))
  {
  }

  /** The offset that the probe at the start of the method reports. */
  function FirstOffset(l0: Listing<ILInstr>): int
    requires WellFormed(l0)
  {
    if |l0.order| >= 2 && OpAt(l0, 0) == CEE_TAILCALL then OffsetAt(l0, 2) else 0
  }

  lemma AllGrows(probes: map<int, nat>, l0: Listing<ILInstr>, l: Listing<ILInstr>, bs: seq<Block<ILInstr>>, l': Listing<ILInstr>,
                 bs': seq<Block<ILInstr>>, s: Probes, leave: ProbeCall, methodId: int)
    requires WellFormed(l0) && AllCovered(probes, l0, l, bs, s, leave, methodId) && Grew(probes, l, bs, l', bs')
    ensures AllCovered(probes, l0, l', bs', s, leave, methodId)
  {
    hide FiresBefore, FiresAfter, OffsetAt, InTailCall, Distinct, Reports, Refers, CoveredAt, Grew;
    assert |bs'| == |bs| by { GrewLength(probes, l, bs, l', bs'); }
    forall k | 0 <= k < |bs'| ensures CoveredAt(probes, l0, l', bs', s, leave, methodId, k) {
      CoveredGrows(probes, l0, l, bs, l', bs', s, leave, methodId, k);
    }
    forall t | 0 <= t < |bs'| ensures FallCovered(probes, l0, l', bs', methodId, t) {
      assert FallCovered(probes, l0, l, bs, methodId, t);
      if t > 0 && Reports(probes, l, bs[t - 1], OffsetAt(l0, t - 1), methodId) {
        ReportsGrows(probes, l, bs, l', bs', t - 1, OffsetAt(l0, t - 1), methodId);
      }
    }
    forall i | 0 <= i < |l0.clauses| && l0.clauses[i].handlerBegin in l0.order
      ensures HandlerCovered(probes, l0, l', bs', s, methodId, Pos(l0.order, l0.clauses[i].handlerBegin))
    {
      HandlerGrows(probes, l0, l, bs, l', bs', s, methodId, Pos(l0.order, l0.clauses[i].handlerBegin));
    }
  }

  lemma GrewLength(probes: map<int, nat>, l: Listing<ILInstr>, bs: seq<Block<ILInstr>>, l': Listing<ILInstr>, bs': seq<Block<ILInstr>>)
    requires Grew(probes, l, bs, l', bs')
    ensures |bs'| == |bs|
  {
  }

  lemma HandlerGrows(probes: map<int, nat>, l0: Listing<ILInstr>, l: Listing<ILInstr>, bs: seq<Block<ILInstr>>, l': Listing<ILInstr>,
                     bs': seq<Block<ILInstr>>, s: Probes, methodId: int, h: nat)
    requires WellFormed(l0) && h < |l0.order| == |bs| && Grew(probes, l, bs, l', bs')
    requires HandlerCovered(probes, l0, l, bs, s, methodId, h)
    ensures HandlerCovered(probes, l0, l', bs', s, methodId, h)
  {
    hide FiresBefore, FiresAfter, OffsetAt;
  }

  /** The probes before the one at the start of the method. */
  lemma CoverageSoFar(probes: map<int, nat>, l0: Listing<ILInstr>, l: Listing<ILInstr>, bs: seq<Block<ILInstr>>, l': Listing<ILInstr>,
                      bs': seq<Block<ILInstr>>, s: Probes, leave: ProbeCall,
                      bs1: seq<Block<ILInstr>>, priority: seq<ProbeInsertion>, at: seq<nat>, more: seq<ProbeInsertion>, more': seq<nat>,
                      off: map<ILInstr, int>, behind: seq<int>, methodId: int)
    requires ValidBody(l0) && Carried(l0, probes, s, leave, bs1, priority, at, more, more', off) && |bs| == |l0.order|
    requires Done(probes, l, bs, priority + more, at + more', off, methodId, |priority + more|)
    requires |more| == |l0.clauses| && forall i :: 0 <= i < |more| ==>
               && l0.clauses[i].handlerBegin in l0.order && more'[i] == Pos(l0.order, l0.clauses[i].handlerBegin)
               && more[i] == ProbeInsertion(l0.clauses[i].handlerBegin, null, s.throw, true)
    requires Grew(probes, l, bs, l', bs') && FallsReported(probes, l0, l', bs', behind, |behind|, methodId)
    requires forall q: nat :: q < |l0.order| ==> TargetsPlanned(l0, behind, q)
    ensures AllCovered(probes, l0, l', bs', s, leave, methodId)
  {
    hide Done, Carried, CoveredAt, FallCovered, HandlerCovered, FallsReported, TargetsPlanned, Grew, ValidAt, ValidClause, Distinct;
    GrewLength(probes, l, bs, l', bs');
    forall k | 0 <= k < |bs'| ensures CoveredAt(probes, l0, l', bs', s, leave, methodId, k) {
      CoveredByPlan(probes, l0, l, bs, s, leave, bs1, priority, at, more, more', off, methodId, k);
      CoveredGrows(probes, l0, l, bs, l', bs', s, leave, methodId, k);
    }
    forall t | 0 <= t < |bs'| ensures FallCovered(probes, l0, l', bs', methodId, t) {
      FallsByPlan(probes, l0, l', bs', behind, methodId, t);
    }
    forall i | 0 <= i < |l0.clauses| && l0.clauses[i].handlerBegin in l0.order
      ensures HandlerCovered(probes, l0, l', bs', s, methodId, Pos(l0.order, l0.clauses[i].handlerBegin))
    {
      HandlersByPlan(probes, l0, l, bs, s, leave, bs1, priority, at, more, more', off, methodId, i);
      HandlerGrows(probes, l0, l, bs, l', bs', s, methodId, Pos(l0.order, l0.clauses[i].handlerBegin));
    }
  }

  /** Inserts all probes but the one at the start of the method. */
  method InsertProbes(pilr: ILRewriter, s: Probes, leave: ProbeCall, methodId: int, ghost probes: map<int, nat>)
    returns (ghost bs: seq<Block<ILInstr>>)
    requires Imported(pilr) && Known(probes, s) && TwoArguments(probes, leave)
    modifies pilr, pilr.head, set n | n in pilr.nodes
    ensures ValidBody(old(pilr.View())) && Woven(pilr, old(pilr.View()), probes, bs)
    ensures AllCovered(probes, old(pilr.View()), pilr.View(), bs, s, leave, methodId)
    ensures Truthful(probes, old(pilr.View()), pilr.View(), bs, s, leave, methodId)
    ensures var l0 := old(pilr.View()); |l0.order| > 0 ==> l0.order[0].offset == FirstOffset(l0)
    ensures var l0 := old(pilr.View());
            && pilr.maxStack + 5 == old(pilr.maxStack) + ExtraDepth(l0)
            && |pilr.nodes| + 5 == NodeCount(l0)
    ensures forall n :: n in pilr.nodes ==> n in old(pilr.nodes) || fresh(n)
  {
    hide Passed, PlanOk, TargetsPlanned, BehindAt, Woven, ScanShape, Todo, Orderly, Done, Recorded, Justified, FallsReported, Grew,
         Applicable, ILRewriter.View, AllCovered, ValidAt, ValidClause, Distinct, Imported, ScannedOffset, Carried, Truthful, PlanReady,
         HandlerStarts, ProbesUpTo, FallsUpTo, HandlerPushes, TailsUpTo, MovedPushes, OffsetAt;
    ghost var l0 := pilr.View();
    var priority, targets;
    ghost var at, behind, bs1;
    priority, targets, at, behind, bs1 := Scan(pilr, s, leave, probes);
    ghost var off := map n | n in pilr.nodes :: n.offset;
    AfterScan(pilr, l0, probes, bs1, off);
    ScanFacts(pilr, l0, probes, bs1);
    var more;
    ghost var more';
    more, more' := HandlerProbes(pilr, s, l0, probes, bs1);
    PlanIsReady(l0, probes, s, leave, bs1, priority, at, more, more', off);
    ScanCost(pilr, l0, probes, bs1);
    TruthfulAtFirst(pilr, l0, probes, bs1, s, leave, methodId);
    if |l0.order| > 0 { FirstOffsetKept(l0, bs1, off); }
    var covered;
    ghost var bs2, moved, covered';
    covered, bs2, moved := InsertPriorityProbes(pilr, priority + more, s, leave, methodId, l0, probes, bs1, at + more', off);
    ghost var l2 := pilr.View();
    IsBodyOf(pilr, l0, probes, bs2);
    assert Progress(probes, l0, l2, bs2, priority + more, at + more', off, s, leave, methodId, covered, moved, |priority + more|);
    FirstProbesJustify(probes, l0, l2, bs2, s, leave, bs1, priority, at, more, more', off, covered, methodId, moved);
    bs, covered' := InsertTargetProbes(pilr, targets, covered, methodId, l0, probes, bs2, s, leave, behind, off);
    assert Falling(probes, l0, l2, bs2, pilr.View(), bs, behind, covered, covered', s, leave, methodId, |behind|);
    CoverageSoFar(probes, l0, l2, bs2, pilr.View(), bs, s, leave, bs1, priority, at, more, more', off, behind, methodId);
    PriorityCost(l0, probes, s, leave, bs1, priority, at, more, more', moved);
    FallCost(l0, probes, s, leave, bs1, priority, at, more, more', off, covered, covered', targets, behind);
  }

  lemma PlanIsReady(l0: Listing<ILInstr>, probes: map<int, nat>, s: Probes, leave: ProbeCall, bs: seq<Block<ILInstr>>,
                    priority: seq<ProbeInsertion>, at: seq<nat>, more: seq<ProbeInsertion>, more': seq<nat>, off: map<ILInstr, int>)
    requires ValidBody(l0) && ScanShape(l0, bs, |l0.order|) && PlanOk(l0, probes, s, leave, bs, priority, at, |l0.order|)
    requires forall k :: 0 <= k < |l0.order| ==> ScannedOffset(l0, bs, off, k)
    requires |more| == |more'| == |l0.clauses|
    requires forall j :: 0 <= j < |more| ==>
               && l0.clauses[j].handlerBegin in l0.order && more'[j] == Pos(l0.order, l0.clauses[j].handlerBegin)
               && more[j] == ProbeInsertion(l0.clauses[j].handlerBegin, null, s.throw, true)
               && Applicable(l0, probes, bs, more[j], more'[j]) && HandlerStarts(l0, more'[j])
    ensures PlanReady(l0, s, leave, priority + more, at + more', off)
    ensures Carried(l0, probes, s, leave, bs, priority, at, more, more', off) && Todo(l0, probes, bs, priority + more, at + more', 0)
  {
    hide PlanOk, ScanShape, Todo, Orderly, Applicable, ValidAt, ValidClause, Distinct, ScannedOffset, Carried, OwnTargets, HandlerStarts;
    assert |bs| == |l0.order| by { PlanWidth(l0, probes, s, leave, bs, priority, at); }
    ReadyToInsert(l0, probes, s, leave, bs, priority, at, more, more', off);
    PlanCarried(l0, probes, s, leave, bs, priority, at, more, more', off);
    PlanIsOwn(l0, probes, s, leave, bs, priority, at, more, more', off);
    PlanIsFree(l0, probes, s, leave, bs, priority, at, more, more');
  }

  lemma PlanWidth(l0: Listing<ILInstr>, probes: map<int, nat>, s: Probes, leave: ProbeCall, bs: seq<Block<ILInstr>>,
                  priority: seq<ProbeInsertion>, at: seq<nat>)
    requires WellFormed(l0) && PlanOk(l0, probes, s, leave, bs, priority, at, |l0.order|)
    ensures |bs| == |l0.order|
  {
  }

  /** What the scan has added to the list, and that it has moved nothing behind a probe. */
  lemma ScanCost(pilr: ILRewriter, l0: Listing<ILInstr>, probes: map<int, nat>, bs: seq<Block<ILInstr>>)
    requires Woven(pilr, l0, probes, bs) && WellFormed(l0) && ScanShape(l0, bs, |l0.order|)
    ensures |pilr.nodes| == |l0.order| + TailsUpTo(l0, |l0.order|) && MovedSoFar(l0, bs, {})
  {
    hide Flatten, Start, GoodBlock, ClausesInside, LandingNops, ValidBody, ILRewriter.Linked;
    NodesAre(pilr, l0, probes, bs);
    ScanStart(l0, bs, |bs|);
    FullStart(bs);
    forall k | 0 <= k < |bs| ensures MovedAt(l0, bs, {}, k) { }
  }

  lemma {:induction false} ScanStart(l0: Listing<ILInstr>, bs: seq<Block<ILInstr>>, k: nat)
    requires WellFormed(l0) && ScanShape(l0, bs, |l0.order|) && k <= |bs|
    ensures Start(bs, k) == k + TailsUpTo(l0, k)
  {
    hide Flatten, Start;
    if k == 0 {
      StartZero(bs);
    } else {
      ScanStart(l0, bs, k - 1);
      BlockAt(bs, k - 1);
      assert bs[k - 1] == if OpAt(l0, k - 1) == CEE_TAILCALL then Block([l0.order[k - 1]], bs[k - 1].carrier, []) else Block([], l0.order[k - 1], []);
    }
  }

  lemma FullStart(bs: seq<Block<ILInstr>>)
    ensures Start(bs, |bs|) == |Flatten(bs)|
  {
  }

  lemma PlanIsFree(l0: Listing<ILInstr>, probes: map<int, nat>, s: Probes, leave: ProbeCall, bs1: seq<Block<ILInstr>>,
                   priority: seq<ProbeInsertion>, at: seq<nat>, more: seq<ProbeInsertion>, more': seq<nat>)
    requires WellFormed(l0) && |bs1| == |l0.order| && PlanOk(l0, probes, s, leave, bs1, priority, at, |l0.order|) && |more| == |more'|
    requires forall j :: 0 <= j < |more| ==> more'[j] < |l0.order| && more[j].target == l0.order[more'[j]]
    ensures FreeCopies(l0, priority + more, at + more')
  {
    hide PlannedAt, Applicable, IsSite;
    var p, a := priority + more, at + more';
    forall h | 0 <= h < |p|
      ensures a[h] < |l0.order|
      ensures p[h].isBeforeInstr && p[h].target != l0.order[a[h]] ==> Pushes(OpAt(l0, a[h])) == 0
    {
      if h < |priority| {
        assert Sited(l0, s, leave, priority[h], at[h], bs1[at[h]].carrier) && at[h] < |l0.order|;
      } else {
        assert more[h - |priority|].target == l0.order[more'[h - |priority|]];
      }
    }
  }

  /** The probes of the first loop are those of the instructions and of the handlers. */
  lemma PriorityCost(l0: Listing<ILInstr>, probes: map<int, nat>, s: Probes, leave: ProbeCall, bs1: seq<Block<ILInstr>>,
                     priority: seq<ProbeInsertion>, at: seq<nat>, more: seq<ProbeInsertion>, more': seq<nat>, moved: set<nat>)
    requires WellFormed(l0) && PlanOk(l0, probes, s, leave, bs1, priority, at, |l0.order|) && |more| == |more'| == |l0.clauses|
    requires forall i :: 0 <= i < |more| ==>
               l0.clauses[i].handlerBegin in l0.order && more'[i] == Pos(l0.order, l0.clauses[i].handlerBegin) && more[i].isBeforeInstr
    requires MovedBy(priority + more, at + more', moved, |priority + more|)
    ensures |priority + more| == ProbesUpTo(l0, |l0.order|) + |l0.clauses|
    ensures MovedPushes(l0, moved, |l0.order|) == HandlerPushes(l0, |l0.order|)
  {
    hide PlannedAt, Applicable, Sited, HandlerStarts, MovedBy, Pushes, MovedPushes, HandlerPushes, Distinct;
    var p, a := priority + more, at + more';
    forall k: nat | k < |l0.order| && HandlerStarts(l0, k) ensures k in moved {
      HandlerMoves(l0, priority, at, more, more', moved, k);
    }
    forall k: nat | k < |l0.order| && k in moved ensures HandlerStarts(l0, k) || Pushes(OpAt(l0, k)) == 0 {
      var h := MovedFor(p, a, moved, k);
      if h < |priority| {
        assert Sited(l0, s, leave, priority[h], at[h], bs1[at[h]].carrier);
        SitedIsFree(l0, s, leave, priority[h], at[h], bs1[at[h]].carrier);
      } else {
        HandlerIsThere(l0, h - |priority|, k);
      }
    }
    MovedByHandlers(l0, moved, |l0.order|);
  }

  lemma HandlerMoves(l0: Listing<ILInstr>, priority: seq<ProbeInsertion>, at: seq<nat>, more: seq<ProbeInsertion>, more': seq<nat>,
                     moved: set<nat>, k: nat)
    requires WellFormed(l0) && |at| == |priority| && |more| == |more'| == |l0.clauses| && k < |l0.order| && HandlerStarts(l0, k)
    requires forall i :: 0 <= i < |more| ==>
               l0.clauses[i].handlerBegin in l0.order && more'[i] == Pos(l0.order, l0.clauses[i].handlerBegin) && more[i].isBeforeInstr
    requires MovedBy(priority + more, at + more', moved, |priority + more|)
    ensures k in moved
  {
    var i :| 0 <= i < |l0.clauses| && l0.clauses[i].handlerBegin == l0.order[k];
    PosUnique(l0.order, k);
    assert (priority + more)[|priority| + i] == more[i] && (at + more')[|priority| + i] == more'[i] == k;
  }

  lemma MovedFor(p: seq<ProbeInsertion>, a: seq<nat>, moved: set<nat>, k: nat) returns (h: nat)
    requires MovedBy(p, a, moved, |p|) && k in moved
    ensures h < |p| == |a| && a[h] == k && p[h].isBeforeInstr
  {
    var j :| 0 <= j < |p| && a[j] == k && p[j].isBeforeInstr;
    h := j;
  }

  lemma SitedIsFree(l0: Listing<ILInstr>, s: Probes, leave: ProbeCall, ins: ProbeInsertion, k: nat, carrier: ILInstr)
    requires WellFormed(l0) && Sited(l0, s, leave, ins, k, carrier) && ins.isBeforeInstr
    ensures Pushes(OpAt(l0, k)) == 0
  {
  }

  lemma HandlerIsThere(l0: Listing<ILInstr>, i: nat, k: nat)
    requires WellFormed(l0) && i < |l0.clauses| && l0.clauses[i].handlerBegin in l0.order && k == Pos(l0.order, l0.clauses[i].handlerBegin)
    ensures HandlerStarts(l0, k)
  {
    assert l0.clauses[i].handlerBegin == l0.order[k];
  }

  lemma ProbedIsDemanded(l0: Listing<ILInstr>, s: Probes, leave: ProbeCall, k: nat)
    requires WellFormed(l0)
    ensures DemandAt(l0, s, leave, k).Probe? <==> IsProbed(l0, k)
  {
  }

  /** In front of a branch target, the first loop has covered exactly the instructions that have a probe of their own. */
  lemma CoveredExactly(l0: Listing<ILInstr>, probes: map<int, nat>, s: Probes, leave: ProbeCall, bs1: seq<Block<ILInstr>>,
                       priority: seq<ProbeInsertion>, at: seq<nat>, more: seq<ProbeInsertion>, more': seq<nat>,
                       off: map<ILInstr, int>, covered: set<int>, x: nat)
    requires ValidBody(l0) && Carried(l0, probes, s, leave, bs1, priority, at, more, more', off)
    requires Recorded(priority + more, off, covered, |priority + more|)
    requires |more'| == |l0.clauses| && forall i :: 0 <= i < |more'| ==>
               && l0.clauses[i].handlerBegin in l0.order && more'[i] == Pos(l0.order, l0.clauses[i].handlerBegin)
               && more[i].target == l0.clauses[i].handlerBegin
    ensures CoveredRight(l0, covered, x)
  {
    hide OffsetAt, Applicable, ValidAt, ValidClause, Distinct, Recorded, PlanOk, IsProbed, AfterTail, HandlerStarts;
    if x < |l0.order| && IsBranchTarget(l0, x + 1) {
      NotPrefix(l0, x);
      if HasProbe(l0, x) {
        ProbeIsCovered(l0, probes, s, leave, bs1, priority, at, more, more', off, covered, x);
      }
      if OffsetAt(l0, x) in covered {
        CoveredHasProbe(l0, probes, s, leave, bs1, priority, at, more, more', off, covered, x);
      }
    }
  }

  /** Branches never lead past a prefix. */
  lemma NotPrefix(l0: Listing<ILInstr>, x: nat)
    requires ValidBody(l0) && x < |l0.order| && IsBranchTarget(l0, x + 1)
    ensures !IsPrefix(OpAt(l0, x))
  {
    hide ValidClause, Distinct;
    var q: nat :| Refers(l0, q, x + 1);
    assert ValidAt(l0, q);
    PosUnique(l0.order, x + 1);
  }

  lemma ProbeIsCovered(l0: Listing<ILInstr>, probes: map<int, nat>, s: Probes, leave: ProbeCall, bs1: seq<Block<ILInstr>>,
                       priority: seq<ProbeInsertion>, at: seq<nat>, more: seq<ProbeInsertion>, more': seq<nat>,
                       off: map<ILInstr, int>, covered: set<int>, x: nat)
    requires ValidBody(l0) && Carried(l0, probes, s, leave, bs1, priority, at, more, more', off)
    requires Recorded(priority + more, off, covered, |priority + more|)
    requires |more'| == |l0.clauses| && forall i :: 0 <= i < |more'| ==> more[i].target == l0.clauses[i].handlerBegin
    requires x < |l0.order| && HasProbe(l0, x) && !IsPrefix(OpAt(l0, x))
    ensures OffsetAt(l0, x) in covered
  {
    hide OffsetAt, Applicable, ValidAt, ValidClause, Distinct, Has, IsProbed, InTailCall, OpcodeIsBranch;
    assert ScannedOffset(l0, bs1, off, x);
    CoveredWhereDue(probes, l0, s, leave, bs1, priority, at, more, more', off, covered, x);
    if AfterTail(l0, x) {
    } else if HandlerStarts(l0, x) {
      var i :| 0 <= i < |l0.clauses| && l0.clauses[i].handlerBegin == l0.order[x];
      assert (priority + more)[|priority| + i] == more[i];
    } else {
      ProbedIsDemanded(l0, s, leave, x);
      assert PlannedAt(l0, s, leave, bs1, priority, at, x);
      var d := DemandAt(l0, s, leave, x);
      PlannedIsCovered(priority, at, more, more', off, covered, x, l0.order[x], d.probe, d.before);
    }
  }

  lemma CoveredHasProbe(l0: Listing<ILInstr>, probes: map<int, nat>, s: Probes, leave: ProbeCall, bs1: seq<Block<ILInstr>>,
                        priority: seq<ProbeInsertion>, at: seq<nat>, more: seq<ProbeInsertion>, more': seq<nat>,
                        off: map<ILInstr, int>, covered: set<int>, x: nat)
    requires ValidBody(l0) && Carried(l0, probes, s, leave, bs1, priority, at, more, more', off)
    requires Recorded(priority + more, off, covered, |priority + more|)
    requires |more'| == |l0.clauses| && forall i :: 0 <= i < |more'| ==>
               l0.clauses[i].handlerBegin in l0.order && more'[i] == Pos(l0.order, l0.clauses[i].handlerBegin)
    requires x < |l0.order| && OffsetAt(l0, x) in covered && !IsPrefix(OpAt(l0, x))
    ensures HasProbe(l0, x)
  {
    hide OffsetAt, Applicable, ScannedOffset, PlannedAt, ValidAt, ValidClause, Distinct, IsProbed;
    var p, a := priority + more, at + more';
    var h :| 0 <= h < |p| && HasOffset(p[h], off, OffsetAt(l0, x));
    assert Applicable(l0, probes, bs1, p[h], a[h]);
    ApplicableIn(l0, probes, bs1, p[h], a[h]);
    assert ScannedOffset(l0, bs1, off, a[h]);
    ProbedOffset(l0, probes, bs1, off, p[h], a[h]);
    if OpAt(l0, a[h]) == CEE_TAILCALL {
      if OffsetAt(l0, x) == OffsetAt(l0, a[h] + 1) { OffsetsDiffer(l0, x, a[h] + 1); } else { OffsetsDiffer(l0, x, a[h] + 2); }
    } else {
      OffsetsDiffer(l0, x, a[h]);
      if h < |priority| {
        assert Sited(l0, s, leave, priority[h], at[h], bs1[at[h]].carrier);
      } else {
        assert l0.clauses[h - |priority|].handlerBegin == l0.order[x];
      }
    }
  }

  /** The second loop covers what falls through into branch targets. */
  lemma FallCost(l0: Listing<ILInstr>, probes: map<int, nat>, s: Probes, leave: ProbeCall, bs1: seq<Block<ILInstr>>,
                 priority: seq<ProbeInsertion>, at: seq<nat>, more: seq<ProbeInsertion>, more': seq<nat>,
                 off: map<ILInstr, int>, covered: set<int>, covered': set<int>, targets: seq<ProbeInsertion>, behind: seq<int>)
    requires ValidBody(l0) && Carried(l0, probes, s, leave, bs1, priority, at, more, more', off)
    requires Recorded(priority + more, off, covered, |priority + more|)
    requires |more'| == |l0.clauses| && forall i :: 0 <= i < |more'| ==>
               && l0.clauses[i].handlerBegin in l0.order && more'[i] == Pos(l0.order, l0.clauses[i].handlerBegin)
               && more[i].target == l0.clauses[i].handlerBegin
    requires |targets| == |behind| && forall j :: 0 <= j < |targets| ==> BehindAt(l0, s, targets[j], behind[j])
    requires forall q: nat :: q < |l0.order| ==> TargetsPlanned(l0, behind, q)
    requires covered' == covered + BehindOffsets(l0, behind, |behind|)
    ensures |covered'| == |covered| + FallsUpTo(l0, |l0.order|)
  {
    hide Carried, Recorded, ValidBody, BehindAt, TargetsPlanned, CoveredRight;
    assert WellFormed(l0) by { BodyWellFormed(l0); }
    forall x: nat | x < |l0.order| ensures CoveredRight(l0, covered, x) {
      CoveredExactly(l0, probes, s, leave, bs1, priority, at, more, more', off, covered, x);
    }
    BehindAreFalls(l0, s, targets, behind);
    FallCount(l0, covered, |l0.order|);
  }

  lemma BehindAreFalls(l0: Listing<ILInstr>, s: Probes, targets: seq<ProbeInsertion>, behind: seq<int>)
    requires WellFormed(l0)
    requires |targets| == |behind| && forall j :: 0 <= j < |targets| ==> BehindAt(l0, s, targets[j], behind[j])
    requires forall q: nat :: q < |l0.order| ==> TargetsPlanned(l0, behind, q)
    ensures BehindOffsets(l0, behind, |behind|) == FallOffsets(l0, |l0.order|)
  {
    hide OffsetAt, FallOffsets, BehindOffsets, Enterable;
    var n := |l0.order|;
    forall o | o in BehindOffsets(l0, behind, |behind|) ensures o in FallOffsets(l0, n) {
      var j := BehindOffset(l0, behind, |behind|, o);
      assert BehindAt(l0, s, targets[j], behind[j]);
      var x: nat := behind[j];
      assert IsFallOffset(l0, x, n, o);
      FallOffset(l0, n, o);
    }
    forall o | o in FallOffsets(l0, n) ensures o in BehindOffsets(l0, behind, |behind|) {
      FallOffset(l0, n, o);
      var x: nat :| IsFallOffset(l0, x, n, o);
      var q: nat :| Refers(l0, q, x + 1);
      assert TargetsPlanned(l0, behind, q);
      var j :| 0 <= j < |behind| && behind[j] == x;
      OffsetBehind(l0, behind, |behind|, j);
    }
  }

  lemma {:induction false} BehindOffset(l0: Listing<ILInstr>, behind: seq<int>, n: nat, o: int) returns (j: nat)
    requires WellFormed(l0) && n <= |behind| && o in BehindOffsets(l0, behind, n)
    ensures j < n && 0 <= behind[j] < |l0.order| && o == OffsetAt(l0, behind[j])
  {
    hide OffsetAt;
    if o in BehindOffsets(l0, behind, n - 1) { j := BehindOffset(l0, behind, n - 1, o); } else { j := n - 1; }
  }

  lemma {:induction false} OffsetBehind(l0: Listing<ILInstr>, behind: seq<int>, n: nat, j: nat)
    requires WellFormed(l0) && j < n <= |behind| && 0 <= behind[j] < |l0.order|
    ensures OffsetAt(l0, behind[j]) in BehindOffsets(l0, behind, n)
  {
    hide OffsetAt;
    if j < n - 1 { OffsetBehind(l0, behind, n - 1, j); }
  }

  lemma ScanFacts(pilr: ILRewriter, l0: Listing<ILInstr>, probes: map<int, nat>, bs: seq<Block<ILInstr>>)
    requires Passed(pilr, l0, probes, bs, |l0.order|)
    ensures ValidBody(l0) && pilr.clauses == l0.clauses && |bs| == |l0.order| && ScanShape(l0, bs, |l0.order|)
  {
  }

  lemma TruthfulAtFirst(pilr: ILRewriter, l0: Listing<ILInstr>, probes: map<int, nat>, bs: seq<Block<ILInstr>>, s: Probes, leave: ProbeCall, methodId: int)
    requires Woven(pilr, l0, probes, bs) && WellFormed(l0) && ScanShape(l0, bs, |l0.order|)
    ensures Truthful(probes, l0, pilr.View(), bs, s, leave, methodId)
  {
    hide Truthful, ScanShape, Sane, ILRewriter.View;
    ScanIsTruthful(probes, l0, pilr.View(), bs, s, leave, methodId);
  }

  lemma PlanIsOwn(l0: Listing<ILInstr>, probes: map<int, nat>, s: Probes, leave: ProbeCall, bs1: seq<Block<ILInstr>>,
                  priority: seq<ProbeInsertion>, at: seq<nat>, more: seq<ProbeInsertion>, more': seq<nat>, off: map<ILInstr, int>)
    requires ValidBody(l0) && Carried(l0, probes, s, leave, bs1, priority, at, more, more', off)
    requires forall j :: 0 <= j < |more'| ==>
               HandlerStarts(l0, more'[j]) && more[j].probe == s.throw && more[j].target == l0.order[more'[j]] && more[j].isBeforeInstr
    ensures OwnTargets(l0, s, leave, priority + more, at + more', off)
  {
    hide OffsetAt, Applicable, ScannedOffset, PlannedAt, ValidAt, ValidClause, Distinct, HandlerStarts, OwnReport;
    var p, a := priority + more, at + more';
    forall h | 0 <= h < |p| ensures p[h].target in off && OwnReport(l0, s, leave, a[h], p[h].probe.addr, off[p[h].target], p[h].isBeforeInstr) {
      assert Applicable(l0, probes, bs1, p[h], a[h]);
      ApplicableIn(l0, probes, bs1, p[h], a[h]);
      assert ScannedOffset(l0, bs1, off, a[h]);
      if h < |priority| {
        assert Sited(l0, s, leave, priority[h], at[h], bs1[at[h]].carrier);
        SitedIsOwn(l0, probes, s, leave, bs1, off, priority[h], at[h]);
      } else {
        HandlerIsOwn(l0, probes, s, leave, bs1, off, more[h - |priority|], a[h]);
      }
    }
  }

  lemma SitedIsOwn(l0: Listing<ILInstr>, probes: map<int, nat>, s: Probes, leave: ProbeCall, bs1: seq<Block<ILInstr>>,
                   off: map<ILInstr, int>, ins: ProbeInsertion, k: nat)
    requires ValidBody(l0) && Applicable(l0, probes, bs1, ins, k) && ScannedOffset(l0, bs1, off, k)
    requires Sited(l0, s, leave, ins, k, bs1[k].carrier)
    ensures ins.target in off && OwnReport(l0, s, leave, k, ins.probe.addr, off[ins.target], ins.isBeforeInstr)
  {
    hide OffsetAt, Applicable, ValidClause, Distinct, HandlerStarts, Site, DemandAt, InTailCall, IsBranchTarget;
    ApplicableIn(l0, probes, bs1, ins, k);
    ProbedOffset(l0, probes, bs1, off, ins, k);
    assert ValidAt(l0, k);
  }

  lemma HandlerIsOwn(l0: Listing<ILInstr>, probes: map<int, nat>, s: Probes, leave: ProbeCall, bs1: seq<Block<ILInstr>>,
                     off: map<ILInstr, int>, ins: ProbeInsertion, k: nat)
    requires ValidBody(l0) && Applicable(l0, probes, bs1, ins, k) && ScannedOffset(l0, bs1, off, k)
    requires HandlerStarts(l0, k) && ins.probe == s.throw && ins.target == l0.order[k] && ins.isBeforeInstr
    ensures ins.target in off && OwnReport(l0, s, leave, k, ins.probe.addr, off[ins.target], ins.isBeforeInstr)
  {
    hide OffsetAt, Applicable, ValidClause, Distinct, HandlerStarts, Site, DemandAt, InTailCall, IsBranchTarget;
    ApplicableIn(l0, probes, bs1, ins, k);
    ProbedOffset(l0, probes, bs1, off, ins, k);
    assert ValidAt(l0, k);
  }

  lemma PlanCarried(l0: Listing<ILInstr>, probes: map<int, nat>, s: Probes, leave: ProbeCall, bs1: seq<Block<ILInstr>>,
                    priority: seq<ProbeInsertion>, at: seq<nat>, more: seq<ProbeInsertion>, more': seq<nat>, off: map<ILInstr, int>)
    requires ValidBody(l0) && |bs1| == |l0.order| && PlanOk(l0, probes, s, leave, bs1, priority, at, |l0.order|) && |more| == |more'|
    requires forall k :: 0 <= k < |l0.order| ==> ScannedOffset(l0, bs1, off, k)
    requires Todo(l0, probes, bs1, priority + more, at + more', 0)
    ensures Carried(l0, probes, s, leave, bs1, priority, at, more, more', off)
  {
    hide PlanOk, ScannedOffset, Applicable;
  }

  /** The offset that the first node keeps. */
  lemma FirstOffsetKept(l0: Listing<ILInstr>, bs1: seq<Block<ILInstr>>, off: map<ILInstr, int>)
    requires ValidBody(l0) && |bs1| == |l0.order| > 0 && ScannedOffset(l0, bs1, off, 0)
    ensures l0.order[0] in off && off[l0.order[0]] == FirstOffset(l0)
  {
    assert ValidAt(l0, 0);
  }

  lemma FirstNode(pilr: ILRewriter, l0: Listing<ILInstr>, probes: map<int, nat>, bs: seq<Block<ILInstr>>)
    requires Woven(pilr, l0, probes, bs) && |l0.order| > 0
    ensures pilr.At(1) == l0.order[0]
  {
    hide Flatten, Start, GoodBlock, ClausesInside, LandingNops, ValidAt, ValidClause, ILRewriter.Linked;
    Links(pilr, l0, probes, bs, 0);
    FirstStart(bs);
    FirstIs(pilr);
  }

  /** The list after the probe at the start of the method has been added. */
  lemma EnterAdded(pilr: ILRewriter, l0: Listing<ILInstr>, l: Listing<ILInstr>, probes: map<int, nat>, bs: seq<Block<ILInstr>>,
                   enter: seq<ILInstr>, s: Probes, leave: ProbeCall, methodId: int)
    requires ValidBody(l0) && Sane(probes, l0, l, bs) && AllCovered(probes, l0, l, bs, s, leave, methodId)
    requires Truthful(probes, l0, l, bs, s, leave, methodId)
    requires Prepended(l, pilr.View(), enter) && IsEnterProbe(probes, pilr.View().code, enter)
    ensures Instrumented(probes, l0, pilr.View(), enter, bs) && ClausesInside(pilr.View())
    ensures AllCovered(probes, l0, pilr.View(), bs, s, leave, methodId) && Truthful(probes, l0, pilr.View(), bs, s, leave, methodId)
  {
    hide Instrumented, AllCovered, Prepended, IsEnterProbe, Fired, ILRewriter.View, ClausesInside, ValidBody, OwnEvent;
    EnterBlocks(probes, l0, l, pilr.View(), bs, enter);
    assert Grew(probes, l, bs, pilr.View(), bs);
    assert WellFormed(l0) by { BodyWellFormed(l0); }
    AllGrows(probes, l0, l, bs, pilr.View(), bs, s, leave, methodId);
  }

  lemma BodyWellFormed(l0: Listing<ILInstr>)
    requires ValidBody(l0)
    ensures WellFormed(l0)
  {
  }

  /** Rewrites the imported method body: every original instruction grows into a block that behaves like it, the probes for
      the ends of basic blocks are in place, and the cost is exactly that of the probes. */
  method Rewrite(pilr: ILRewriter, s: Probes, methodId: int, isMain: bool, ghost probes: map<int, nat>)
    returns (ghost enter: seq<ILInstr>, ghost bs: seq<Block<ILInstr>>)
    requires pilr.Valid() && ValidBody(pilr.View()) && pilr.head.opcode == -1 && Known(probes, s)
    modifies pilr, pilr.head, set n | n in pilr.nodes
    ensures pilr.Valid() && ValidBody(old(pilr.View()))
    ensures Instrumented(probes, old(pilr.View()), pilr.View(), enter, bs) && ClausesInside(pilr.View())
    ensures AllCovered(probes, old(pilr.View()), pilr.View(), bs, s, if isMain then s.leaveMain else s.leave, methodId)
    ensures Truthful(probes, old(pilr.View()), pilr.View(), bs, s, if isMain then s.leaveMain else s.leave, methodId)
    ensures enter != []
    ensures |old(pilr.nodes)| > 0 ==>
              EnterEvents(probes, pilr.View().code, enter) ==
              [Event((if isMain then s.enterMain else s.enter).addr, [FirstOffset(old(pilr.View())), methodId, 0])]
    ensures pilr.maxStack == old(pilr.maxStack) + ExtraDepth(old(pilr.View())) && |pilr.nodes| == NodeCount(old(pilr.View()))
    ensures forall n :: n in pilr.nodes ==> n in old(pilr.nodes) || fresh(n)
  {
    hide ValidBody, Woven, AllCovered, Truthful, Instrumented, ClausesInside, Prepended, IsEnterProbe, EnterEvents, ILRewriter.View,
    ILRewriter.Linked, FirstOffset, Sane,
         ExtraDepth, NodeCount;
    var enterMethod := if isMain then s.enterMain else s.enter;
    var leaveMethod := if isMain then s.leaveMain else s.leave;
    ghost var l0 := pilr.View();
    ViewOrder(pilr);
    CountOffsets(pilr);
    bs := InsertProbes(pilr, s, leaveMethod, methodId, probes);
    ghost var l := pilr.View();
    WovenFacts(pilr, l0, probes, bs);
    if |l0.order| > 0 { FirstNode(pilr, l0, probes, bs); }
    enter := AddEnterProbe(pilr, enterMethod, methodId, probes);
    assert |enter| == 5 by { EnterLength(probes, pilr.View(), enter); }
    EnterAdded(pilr, l0, l, probes, bs, enter, s, leaveMethod, methodId);
  }

  lemma EnterLength(probes: map<int, nat>, l: Listing<ILInstr>, enter: seq<ILInstr>)
    requires IsEnterProbe(probes, l.code, enter)
    ensures |enter| == 5
  {
  }

  lemma WovenFacts(pilr: ILRewriter, l0: Listing<ILInstr>, probes: map<int, nat>, bs: seq<Block<ILInstr>>)
    requires Woven(pilr, l0, probes, bs)
    ensures pilr.Valid() && Sane(probes, l0, pilr.View(), bs) && ValidBody(l0)
  {
  }
}
