/** What the scan of a method body plans: which probes to insert, and where. */
module Planning {
  import opened Opcodes
  import opened Listings
  import opened Blocks
  import opened MethodBody
  import opened Accounting
  import opened InstructionList
  import opened CoverageProbes

  datatype Probes = Probes(coverage: ProbeCall, stsfld: ProbeCall, branch: ProbeCall, enter: ProbeCall, enterMain: ProbeCall,
                           leave: ProbeCall, leaveMain: ProbeCall, call: ProbeCall, tailcall: ProbeCall, throw: ProbeCall)

  datatype ProbeInsertion = ProbeInsertion(target: ILInstr, parent: ILInstr?, probe: ProbeCall, isBeforeInstr: bool)

  predicate TwoArguments(probes: map<int, nat>, p: ProbeCall) {
    p.addr in probes && probes[p.addr] == 2
  }

  predicate ThreeArguments(probes: map<int, nat>, p: ProbeCall) {
    p.addr in probes && probes[p.addr] == 3
  }

  predicate Known(probes: map<int, nat>, s: Probes) {
    && TwoArguments(probes, s.coverage) && TwoArguments(probes, s.stsfld) && TwoArguments(probes, s.branch)
    && TwoArguments(probes, s.leave) && TwoArguments(probes, s.leaveMain) && TwoArguments(probes, s.call)
    && TwoArguments(probes, s.tailcall) && TwoArguments(probes, s.throw)
    && ThreeArguments(probes, s.enter) && ThreeArguments(probes, s.enterMain)
  }

  datatype Demand = Nothing | Probe(probe: ProbeCall, before: bool)

  /** The probe that reports the execution of the instruction at `k`. */
  function DemandAt(l0: Listing<ILInstr>, s: Probes, leave: ProbeCall, k: nat): Demand
    requires WellFormed(l0)
  {
    var op := OpAt(l0, k);
    if OpcodeIsBranch(op) then Probe(s.branch, true)
    else if op == CEE_STSFLD then Probe(s.stsfld, true)
    else if IsCall(op) then if InTailCall(l0, k) then Nothing else Probe(s.call, false)
    else if op == CEE_RET then if InTailCall(l0, k) then Nothing else Probe(leave, true)
    else if op == CEE_ENDFINALLY || op == CEE_ENDFILTER then Probe(s.coverage, true)
    else if op == CEE_THROW || op == CEE_RETHROW then Probe(s.throw, true)
    else Nothing
  }

  /** The insertion is for the probe that some instruction demands, or for those of a `tail.` prefix, which `carrier` now
      holds; what moves behind a probe pushes nothing. */
  predicate Sited(l0: Listing<ILInstr>, s: Probes, leave: ProbeCall, ins: ProbeInsertion, k: nat, carrier: ILInstr)
    requires WellFormed(l0)
  {
    && IsSite(l0, k) && (ins.isBeforeInstr ==> Pushes(OpAt(l0, k)) == 0)
    && (OpAt(l0, k) == CEE_TAILCALL ==>
          ins.isBeforeInstr && ((ins.probe == s.tailcall && ins.target == carrier) || (ins.probe == s.coverage && ins.target == l0.order[k])))
    && (OpAt(l0, k) != CEE_TAILCALL ==> Demands(l0, s, leave, k, k, ins) || Demands(l0, s, leave, k + 1, k, ins))
  }

  predicate Demands(l0: Listing<ILInstr>, s: Probes, leave: ProbeCall, q: nat, k: nat, ins: ProbeInsertion)
    requires WellFormed(l0)
  {
    q < |l0.order| && Site(l0, q) == k && DemandAt(l0, s, leave, q) == Probe(ins.probe, ins.isBeforeInstr)
  }

  /** The insertion may be made at block `k`, as the blocks are now. */
  ghost predicate Applicable(l0: Listing<ILInstr>, probes: map<int, nat>, bs: seq<Block<ILInstr>>, ins: ProbeInsertion, k: nat)
    requires WellFormed(l0)
  {
    && k < |l0.order| == |bs| && TwoArguments(probes, ins.probe)
    && (ins.isBeforeInstr ==> MayPrecede(l0, k))
    && (!ins.isBeforeInstr ==> MayFollow(l0, k))
    && (ins.target == l0.order[k] || (ins.isBeforeInstr && ins.target == bs[k].carrier))
  }

  /** An insertion for block `k` is planned. */
  ghost predicate Has(priority: seq<ProbeInsertion>, at: seq<nat>, k: nat, target: ILInstr, probe: ProbeCall, before: bool) {
    |at| == |priority| && exists j :: 0 <= j < |priority| && at[j] == k && IsFor(priority[j], target, probe, before)
  }

  predicate IsFor(ins: ProbeInsertion, target: ILInstr, probe: ProbeCall, before: bool) {
    ins.target == target && ins.probe == probe && ins.isBeforeInstr == before
  }

  lemma HasLater(priority: seq<ProbeInsertion>, at: seq<nat>, more: seq<ProbeInsertion>, more': seq<nat>,
                 k: nat, target: ILInstr, probe: ProbeCall, before: bool)
    requires Has(priority, at, k, target, probe, before) && |more| == |more'|
    ensures Has(priority + more, at + more', k, target, probe, before)
  {
    var j :| 0 <= j < |priority| && at[j] == k && IsFor(priority[j], target, probe, before);
    assert (at + more')[j] == k && IsFor((priority + more)[j], target, probe, before);
  }

  lemma HasLast(priority: seq<ProbeInsertion>, at: seq<nat>, ins: ProbeInsertion, k: nat)
    requires |at| == |priority|
    ensures Has(priority + [ins], at + [k], k, ins.target, ins.probe, ins.isBeforeInstr)
  {
    var j := |priority|;
    assert (at + [k])[j] == k && IsFor((priority + [ins])[j], ins.target, ins.probe, ins.isBeforeInstr);
  }

  /** Everything the instruction at `k` demands is planned. */
  ghost predicate PlannedAt(l0: Listing<ILInstr>, s: Probes, leave: ProbeCall, bs: seq<Block<ILInstr>>,
                            priority: seq<ProbeInsertion>, at: seq<nat>, k: nat)
    requires WellFormed(l0) && k < |l0.order| == |bs|
  {
    && (var d := DemandAt(l0, s, leave, k);
        d.Probe? ==> Has(priority, at, Site(l0, k), l0.order[Site(l0, k)], d.probe, d.before))
    && (OpAt(l0, k) == CEE_TAILCALL ==>
          && Has(priority, at, k, bs[k].carrier, s.tailcall, true)
          && Has(priority, at, k, l0.order[k], s.coverage, true))
  }

  lemma PlannedLater(l0: Listing<ILInstr>, s: Probes, leave: ProbeCall, bs: seq<Block<ILInstr>>, bs': seq<Block<ILInstr>>,
                     priority: seq<ProbeInsertion>, at: seq<nat>, more: seq<ProbeInsertion>, more': seq<nat>, k: nat)
    requires WellFormed(l0) && k < |l0.order| == |bs| == |bs'|
    requires PlannedAt(l0, s, leave, bs, priority, at, k) && |more| == |more'| && bs'[k] == bs[k]
    ensures PlannedAt(l0, s, leave, bs', priority + more, at + more', k)
  {
    hide Has;
    var d := DemandAt(l0, s, leave, k);
    if d.Probe? {
      HasLater(priority, at, more, more', Site(l0, k), l0.order[Site(l0, k)], d.probe, d.before);
    }
    if OpAt(l0, k) == CEE_TAILCALL {
      HasLater(priority, at, more, more', k, bs[k].carrier, s.tailcall, true);
      HasLater(priority, at, more, more', k, l0.order[k], s.coverage, true);
    }
  }

  /** A probe for the fall-through into a branch target goes behind the instruction at `x`; -1 is the list's head. */
  ghost predicate BehindAt(l0: Listing<ILInstr>, s: Probes, ins: ProbeInsertion, x: int)
    requires WellFormed(l0)
  {
    && -1 <= x < |l0.order| - 1 && Enterable(l0, x + 1) && IsBranchTarget(l0, x + 1)
    && IsFor(ins, if x == -1 then l0.end else l0.order[x], s.coverage, false)
  }

  /** The fall-through into every instruction that `q` refers to is planned for. */
  ghost predicate TargetsPlanned(l0: Listing<ILInstr>, behind: seq<int>, q: nat)
    requires WellFormed(l0)
  {
    forall t: nat :: Refers(l0, q, t) ==> t - 1 in behind
  }

  /** The blocks after the scan has passed the first `i` instructions. */
  ghost predicate ScanShape(l0: Listing<ILInstr>, bs: seq<Block<ILInstr>>, i: nat)
    requires WellFormed(l0)
  {
    && |bs| == |l0.order|
    && (forall k :: 0 <= k < |bs| ==>
          bs[k] == if k < i && OpAt(l0, k) == CEE_TAILCALL then Block([l0.order[k]], bs[k].carrier, []) else Block([], l0.order[k], []))
  }

  /** The plan for the first `i` instructions. */
  ghost predicate PlanOk(l0: Listing<ILInstr>, probes: map<int, nat>, s: Probes, leave: ProbeCall, bs: seq<Block<ILInstr>>,
                         priority: seq<ProbeInsertion>, at: seq<nat>, i: nat)
    requires WellFormed(l0)
  {
    && i <= |l0.order| == |bs| && |at| == |priority|
    && (forall j :: 0 <= j < |priority| ==> at[j] < i && Applicable(l0, probes, bs, priority[j], at[j]))
    && (forall j :: 0 <= j < |priority| ==> Sited(l0, s, leave, priority[j], at[j], bs[at[j]].carrier))
    && |priority| == ProbesUpTo(l0, i)
    && (forall j, k :: 0 <= j < k < |priority| && at[j] == at[k] ==>
          priority[k].isBeforeInstr && (priority[j].target == l0.order[at[j]] || priority[k].target == l0.order[at[k]]))
    && (forall k :: 0 <= k < i ==> PlannedAt(l0, s, leave, bs, priority, at, k))
  }

  /** Planning for one more instruction. */
  lemma PlanExtends(l0: Listing<ILInstr>, probes: map<int, nat>, s: Probes, leave: ProbeCall, bs: seq<Block<ILInstr>>, bs': seq<Block<ILInstr>>,
                    priority: seq<ProbeInsertion>, at: seq<nat>, more: seq<ProbeInsertion>, more': seq<nat>, i: nat)
    requires WellFormed(l0) && i < |l0.order| == |bs'| && PlanOk(l0, probes, s, leave, bs, priority, at, i)
    requires forall k :: 0 <= k < |bs| && k != i ==> bs'[k] == bs[k]
    requires |more| == |more'| == ProbesFor(l0, i)
    requires forall j :: 0 <= j < |more| ==> more'[j] <= i && Applicable(l0, probes, bs', more[j], more'[j]) && Sited(l0, s, leave,
             more[j], more'[j], bs'[more'[j]].carrier)
    requires forall j :: 0 <= j < |more| ==>
               (more[j].target == l0.order[more'[j]] && more[j].isBeforeInstr) || (more'[j] == i && j == 0)
    requires PlannedAt(l0, s, leave, bs', priority + more, at + more', i)
    ensures PlanOk(l0, probes, s, leave, bs', priority + more, at + more', i + 1)
  {
    hide PlannedAt, MayPrecede, MayFollow, Distinct, Sited;
    forall k | 0 <= k < i ensures PlannedAt(l0, s, leave, bs', priority + more, at + more', k) {
      PlannedLater(l0, s, leave, bs, bs', priority, at, more, more', k);
    }
    forall j | 0 <= j < |priority + more|
      ensures (at + more')[j] < i + 1 && Applicable(l0, probes, bs', (priority + more)[j], (at + more')[j])
      ensures Sited(l0, s, leave, (priority + more)[j], (at + more')[j], bs'[(at + more')[j]].carrier)
    {
      if j < |priority| {
        assert at[j] < i && Applicable(l0, probes, bs, priority[j], at[j]) && Sited(l0, s, leave, priority[j], at[j], bs[at[j]].carrier);
      } else {
        var h := j - |priority|;
        assert more'[h] <= i && Applicable(l0, probes, bs', more[h], more'[h]) && Sited(l0, s, leave, more[h], more'[h], bs'[more'[h]].carrier);
      }
    }
  }

  lemma HasBehind(priority: seq<ProbeInsertion>, at: seq<nat>, more: seq<ProbeInsertion>, more': seq<nat>,
                  k: nat, target: ILInstr, probe: ProbeCall, before: bool)
    requires Has(more, more', k, target, probe, before) && |priority| == |at|
    ensures Has(priority + more, at + more', k, target, probe, before)
  {
    var j :| 0 <= j < |more| && more'[j] == k && IsFor(more[j], target, probe, before);
    var h := |priority| + j;
    assert (at + more')[h] == k && IsFor((priority + more)[h], target, probe, before);
  }

  lemma PlannedBehind(l0: Listing<ILInstr>, s: Probes, leave: ProbeCall, bs: seq<Block<ILInstr>>,
                      priority: seq<ProbeInsertion>, at: seq<nat>, more: seq<ProbeInsertion>, more': seq<nat>, k: nat)
    requires WellFormed(l0) && k < |l0.order| == |bs| && |priority| == |at|
    requires PlannedAt(l0, s, leave, bs, more, more', k)
    ensures PlannedAt(l0, s, leave, bs, priority + more, at + more', k)
  {
    hide Has;
    var d := DemandAt(l0, s, leave, k);
    if d.Probe? {
      HasBehind(priority, at, more, more', Site(l0, k), l0.order[Site(l0, k)], d.probe, d.before);
    }
    if OpAt(l0, k) == CEE_TAILCALL {
      HasBehind(priority, at, more, more', k, bs[k].carrier, s.tailcall, true);
      HasBehind(priority, at, more, more', k, l0.order[k], s.coverage, true);
    }
  }

  /** What the scan plans for the instruction at `i`. */
  ghost predicate PlanStep(l0: Listing<ILInstr>, probes: map<int, nat>, s: Probes, leave: ProbeCall, bs: seq<Block<ILInstr>>,
                           more: seq<ProbeInsertion>, at: seq<nat>, i: nat)
    requires WellFormed(l0) && i < |l0.order|
  {
    && |bs| == |l0.order| && |more| == |at| == ProbesFor(l0, i)
    && (forall j :: 0 <= j < |more| ==> at[j] <= i && Applicable(l0, probes, bs, more[j], at[j]) && Sited(l0, s, leave, more[j], at[j], bs[at[j]].carrier))
    && (forall j :: 0 <= j < |more| ==> (more[j].target == l0.order[at[j]] && more[j].isBeforeInstr) || (at[j] == i && j == 0))
    && PlannedAt(l0, s, leave, bs, more, at, i)
  }

  lemma PlanSingle(l0: Listing<ILInstr>, probes: map<int, nat>, s: Probes, leave: ProbeCall, bs: seq<Block<ILInstr>>,
                   ins: ProbeInsertion, k: nat, i: nat)
    requires WellFormed(l0) && i < |l0.order| == |bs| && OpAt(l0, i) != CEE_TAILCALL && k == Site(l0, i)
    requires Applicable(l0, probes, bs, ins, k) && ins.target == l0.order[k]
    requires DemandAt(l0, s, leave, i) == Probe(ins.probe, ins.isBeforeInstr)
    requires ins.isBeforeInstr || k == i
    requires IsSite(l0, k) && (ins.isBeforeInstr ==> Pushes(OpAt(l0, k)) == 0) && OpAt(l0, k) != CEE_TAILCALL
    ensures PlanStep(l0, probes, s, leave, bs, [ins], [k], i)
  {
    HasLast([], [], ins, k);
    assert [] + [ins] == [ins] && [] + [k] == [k];
  }

  lemma PlanNothing(l0: Listing<ILInstr>, probes: map<int, nat>, s: Probes, leave: ProbeCall, bs: seq<Block<ILInstr>>, i: nat)
    requires WellFormed(l0) && i < |l0.order| == |bs| && OpAt(l0, i) != CEE_TAILCALL && DemandAt(l0, s, leave, i).Nothing?
    ensures PlanStep(l0, probes, s, leave, bs, [], [], i)
  {
  }

  /** What the scan plans for the targets of the branch or `switch` at `i`. */
  ghost predicate TargetStep(l0: Listing<ILInstr>, s: Probes, targets: seq<ProbeInsertion>, behind: seq<int>, i: nat)
    requires WellFormed(l0) && i < |l0.order|
  {
    && |targets| == |behind|
    && (forall j :: 0 <= j < |targets| ==> BehindAt(l0, s, targets[j], behind[j]))
    && (OpAt(l0, i) != CEE_SWITCH_ARG ==> TargetsPlanned(l0, behind, i))
    && (OpAt(l0, i) == CEE_SWITCH && l0.code[l0.order[i]].arg.Bits? ==>
          forall q: nat :: i < q <= i + l0.code[l0.order[i]].arg.value ==> TargetsPlanned(l0, behind, q))
  }
}
