/** What the rewriter promises about whole runs of a method. */
module Instrumentation {
  import opened Opcodes
  import opened Listings
  import opened Machine
  import opened Blocks
  import opened Simulation
  import opened MethodBody
  import opened InstructionList
  import opened CoverageProbes
  import opened Planning
  import opened Weaving
  import opened RewriteIL

  /** A method body together with what `Rewrite` has made of it, for a machine that knows the probes and transfers
      control only to instructions of the original body. */
  ghost predicate Instruments<R>(m: Machine<ILInstr, R>, w: Rewriting<ILInstr>, s: Probes, leave: ProbeCall, methodId: int) {
    && ValidBody(w.before)
    && Instrumented(m.probes, w.before, w.after, w.enter, w.blocks)
    && AllCovered(m.probes, w.before, w.after, w.blocks, s, leave, methodId)
    && Truthful(m.probes, w.before, w.after, w.blocks, s, leave, methodId)
    && (forall n :: n in m.entries ==> n in w.before.order)
  }

  lemma InstrumentsIsValid<R>(m: Machine<ILInstr, R>, w: Rewriting<ILInstr>, s: Probes, leave: ProbeCall, methodId: int)
    requires Instruments(m, w, s, leave, methodId)
    ensures Simulation.Valid(m, w)
  {
    hide Instrumented, AllCovered, Truthful, ValidClause;
    forall p | 0 <= p < |w.before.order| && w.before.code[w.before.order[p]].op == CEE_SWITCH
      ensures w.before.code[w.before.order[p]].arg.Bits? && w.before.code[w.before.order[p]].arg.value >= 0
           && IsSwitch(w.before, p, w.before.code[w.before.order[p]].arg.value)
    {
      assert ValidAt(w.before, p);
    }
  }

  lemma ValidIsWellFormed<R>(m: Machine<ILInstr, R>, w: Rewriting<ILInstr>)
    requires Simulation.Valid(m, w)
    ensures WellFormed(w.before) && WellFormed(w.after) && |w.blocks| == |w.before.order|
  {
  }

  /** Every carrier, labelled with the node of the original instruction. */
  ghost function Labels(w: Rewriting<ILInstr>): map<ILInstr, ILInstr>
  {
    map n | n in (set k: nat | k < |w.blocks| :: w.blocks[k].carrier) :: w.blocks[BlockOf(w, n)].Home()
  }

  ghost function BlockOf(w: Rewriting<ILInstr>, n: ILInstr): (k: nat)
    requires exists k: nat :: k < |w.blocks| && w.blocks[k].carrier == n
    ensures k < |w.blocks| && w.blocks[k].carrier == n
  {
    var k: nat :| k < |w.blocks| && w.blocks[k].carrier == n;
    k
  }

  lemma CarriersDiffer<R>(m: Machine<ILInstr, R>, w: Rewriting<ILInstr>, j: nat, k: nat)
    requires Simulation.Valid(m, w) && j < |w.blocks| && k < |w.blocks| && w.blocks[j].carrier == w.blocks[k].carrier
    ensures j == k
  {
    hide GoodBlock, SwitchesComplete, IsEnterProbe, Flatten, Start;
    BlockNodes(m, w, j);
    BlockNodes(m, w, k);
    CarrierInside(w, j, k);
  }

  lemma LabelsLabel<R>(m: Machine<ILInstr, R>, w: Rewriting<ILInstr>)
    requires Simulation.Valid(m, w)
    ensures IsLabelling(w, Labels(w))
  {
    hide SwitchesComplete, IsEnterProbe, Flatten, Start, Neutral, RegionsAt, MayPrecede, MayFollow, Distinct;
    forall k | 0 <= k < |w.blocks|
      ensures w.blocks[k].carrier in Labels(w) && Labels(w)[w.blocks[k].carrier] == w.before.order[k]
    {
      CarriersDiffer(m, w, BlockOf(w, w.blocks[k].carrier), k);
      assert GoodBlock(m.probes, w.before, w.after, |w.enter|, w.blocks, k);
    }
  }

  /** Instrumentation preserves meaning: an observer of the original instructions cannot tell the rewritten method from
      the original one, however long either runs. */
  lemma SameRuns<R>(m: Machine<ILInstr, R>, w: Rewriting<ILInstr>, s: Probes, leave: ProbeCall, methodId: int, rest: R, n: nat)
    requires Instruments(m, w, s, leave, methodId)
    ensures WellFormed(w.after) && exists k: nat :: k >= n && SameRun(m, w, rest, n, k)
    ensures exists i: nat :: i <= n && Trace(m, w.after, Entry(rest), n, Labels(w)) == Trace(m, w.before, Entry(rest), i, Itself(w.before))
  {
    hide Instruments, Simulation.Valid, Trace, Run, RunLog, Itself, Labels, Distinct;
    InstrumentsIsValid(m, w, s, leave, methodId);
    ValidIsWellFormed(m, w);
    LabelsLabel(m, w);
    var k := MeaningPreserved(m, w, Labels(w), rest, n);
    assert SameRun(m, w, rest, n, k);
    var i := NothingAdded(m, w, Labels(w), rest, n);
  }

  /** After `k` steps the rewritten method has done what the original does in `n`, and called the probes that belong to
      the executed instructions. */
  ghost predicate SameRun<R>(m: Machine<ILInstr, R>, w: Rewriting<ILInstr>, rest: R, n: nat, k: nat)
  {
    && Simulation.Valid(m, w)
    && Trace(m, w.after, Entry(rest), k, Labels(w)) == Trace(m, w.before, Entry(rest), n, Itself(w.before))
    && Matches(w, Run(m, w.before, Entry(rest), n), Run(m, w.after, Entry(rest), k))
    && Run(m, w.after, Entry(rest), k).log == EnterEvents(m.probes, w.after.code, w.enter) + RunLog(m, w, Entry(rest), n)
  }

  lemma {:induction false} RunLogStep<R>(m: Machine<ILInstr, R>, w: Rewriting<ILInstr>, c: Config<ILInstr, R>, n: nat)
    requires Simulation.Valid(m, w)
    ensures RunLog(m, w, c, n + 1) == RunLog(m, w, c, n) + StepLog(m, w, Run(m, w.before, c, n))
    decreases n
  {
    hide StepLog, Step, GoodBlock, IsEnterProbe, Flatten, Distinct, SwitchesComplete;
    if n == 0 {
      assert RunLog(m, w, c, 1) == StepLog(m, w, c) + RunLog(m, w, Step(m, w.before, c), 0);
    } else {
      RunLogStep(m, w, Step(m, w.before, c), n - 1);
    }
  }

  /** The probes that the execution of the instruction at `c` fires. */
  lemma StepFires<R>(m: Machine<ILInstr, R>, w: Rewriting<ILInstr>, c: Config<ILInstr, R>, e: Event)
    requires Simulation.Valid(m, w) && c.Running? && c.pc < |w.blocks|
    ensures FiresBefore(m.probes, w.after, w.blocks[c.pc], e) ==> e in StepLog(m, w, c)
    ensures FiresAfter(m.probes, w.after, w.blocks[c.pc], e) && Next(m, w, c).outcome.Fall? ==> e in StepLog(m, w, c)
  {
    hide Flatten, Start, Events, RegionsAt, SwitchesComplete, IsEnterProbe, Perform, Distinct;
    assert GoodBlock(m.probes, w.before, w.after, |w.enter|, w.blocks, c.pc);
  }

  /** Coverage is complete outside tail calls: whatever ends a basic block in a run is reported in that run, under its
      original offset.  (For the returns of tail calls see `TailReturnReported`.) */
  lemma CoverageComplete<R>(m: Machine<ILInstr, R>, w: Rewriting<ILInstr>, s: Probes, leave: ProbeCall, methodId: int, rest: R, n: nat)
    requires Instruments(m, w, s, leave, methodId)
    requires var c := Run(m, w.before, Entry(rest), n); c.Running? && c.pc < |w.before.order|
    ensures Simulation.Valid(m, w)
    ensures var c := Run(m, w.before, Entry(rest), n);
            var falls := Next(m, w, c).outcome.Fall?;
            forall k :: 0 <= k < |w.before.order| && Site(w.before, k) == c.pc ==>
              var d := DemandAt(w.before, s, leave, k);
              d.Probe? && (d.before || falls) ==>
                EventFor(d.probe, OffsetAt(w.before, c.pc), methodId) in RunLog(m, w, Entry(rest), n + 1)
    ensures var c := Run(m, w.before, Entry(rest), n);
            Next(m, w, c).outcome.Fall? && c.pc + 1 < |w.before.order| && IsBranchTarget(w.before, c.pc + 1) && !InTailCall(w.before, c.pc) ==>
              exists e: Event :: e in RunLog(m, w, Entry(rest), n + 1) && e.args == [OffsetAt(w.before, c.pc), methodId]
  {
    hide Instrumented, Truthful, RunLog, StepLog, Step, FiresBefore, FiresAfter, SwitchesComplete, OffsetAt, InTailCall, IsBranchTarget,
         DemandAt, Site, Perform, ValidAt, ValidClause, Distinct, Run;
    InstrumentsIsValid(m, w, s, leave, methodId);
    var c := Run(m, w.before, Entry(rest), n);
    RunLogStep(m, w, Entry(rest), n);
    var falls := Next(m, w, c).outcome.Fall?;
    forall k | 0 <= k < |w.before.order| && Site(w.before, k) == c.pc
      ensures var d := DemandAt(w.before, s, leave, k);
              d.Probe? && (d.before || falls) ==> EventFor(d.probe, OffsetAt(w.before, c.pc), methodId) in RunLog(m, w, Entry(rest), n + 1)
    {
      assert CoveredAt(m.probes, w.before, w.after, w.blocks, s, leave, methodId, k);
      var d := DemandAt(w.before, s, leave, k);
      if d.Probe? { StepFires(m, w, c, EventFor(d.probe, OffsetAt(w.before, c.pc), methodId)); }
    }
    if falls && c.pc + 1 < |w.before.order| && IsBranchTarget(w.before, c.pc + 1) && !InTailCall(w.before, c.pc) {
      var t := c.pc + 1;
      assert FallCovered(m.probes, w.before, w.after, w.blocks, methodId, t);
      var e: Event :| e.args == [OffsetAt(w.before, c.pc), methodId]
                   && (FiresBefore(m.probes, w.after, w.blocks[c.pc], e) || FiresAfter(m.probes, w.after, w.blocks[c.pc], e));
      StepFires(m, w, c, e);
    }
  }

  /** The instruction that an event belongs to was executed in one of the first `n` steps. */
  ghost predicate Executed<R>(m: Machine<ILInstr, R>, w: Rewriting<ILInstr>, s: Probes, leave: ProbeCall, methodId: int, rest: R, n: nat, e: Event)
    requires Simulation.Valid(m, w)
  {
    exists i: nat :: i < n && RanAt(m, w, s, leave, methodId, rest, i, e)
  }

  ghost predicate RanAt<R>(m: Machine<ILInstr, R>, w: Rewriting<ILInstr>, s: Probes, leave: ProbeCall, methodId: int, rest: R, i: nat, e: Event)
    requires Simulation.Valid(m, w)
  {
    var c := Run(m, w.before, Entry(rest), i);
    && c.Running? && c.pc < |w.before.order|
    && (OwnEvent(w.before, c.pc, s, leave, methodId, e, true)
        || (Next(m, w, c).outcome.Fall? && OwnEvent(w.before, c.pc, s, leave, methodId, e, false)))
  }

  lemma StepReportsItself<R>(m: Machine<ILInstr, R>, w: Rewriting<ILInstr>, s: Probes, leave: ProbeCall, methodId: int, c: Config<ILInstr, R>, e: Event)
    requires Simulation.Valid(m, w) && Truthful(m.probes, w.before, w.after, w.blocks, s, leave, methodId) && e in StepLog(m, w, c)
    ensures e in Step(m, w.before, c).log
         || (&& c.Running? && c.pc < |w.before.order|
             && (OwnEvent(w.before, c.pc, s, leave, methodId, e, true)
                 || (Next(m, w, c).outcome.Fall? && OwnEvent(w.before, c.pc, s, leave, methodId, e, false))))
  {
    hide Flatten, Start, Events, RegionsAt, SwitchesComplete, IsEnterProbe, Perform, Distinct, OwnEvent;
    assert GoodBlock(m.probes, w.before, w.after, |w.enter|, w.blocks, c.pc);
    if e !in Next(m, w, c).events {
      var b := w.blocks[c.pc];
      if e in Fired(m.probes, w.after.code, b.pre) {
        assert Fires(m.probes, w.after, b, e, true);
      } else {
        assert Next(m, w, c).outcome.Fall? && e in Fired(m.probes, w.after.code, b.post);
        assert Fires(m.probes, w.after, b, e, false);
      }
    }
  }

  /** Coverage is truthful: whatever is reported in a run, unless the original method itself calls a probe, belongs to an
      instruction that has been executed, under its original offset; and what is reported behind an instruction only if this
      has completed. */
  lemma {:induction false} ReportsOnlyExecuted<R>(m: Machine<ILInstr, R>, w: Rewriting<ILInstr>, s: Probes, leave: ProbeCall, methodId: int,
                                                  rest: R, n: nat, e: Event)
    requires Instruments(m, w, s, leave, methodId)
    ensures Simulation.Valid(m, w)
    ensures e in RunLog(m, w, Entry(rest), n) ==>
              Executed(m, w, s, leave, methodId, rest, n, e) || e in Run(m, w.before, Entry(rest), n).log
  {
    hide Instrumented, AllCovered, Truthful, RunLog, StepLog, OwnEvent, Run, Step, ValidAt, ValidClause, Simulation.Valid;
    InstrumentsIsValid(m, w, s, leave, methodId);
    if n == 0 {
      NoLog(m, w, Entry(rest));
    } else if e in RunLog(m, w, Entry(rest), n) {
      ReportsOnlyExecuted(m, w, s, leave, methodId, rest, n - 1, e);
      RunLogStep(m, w, Entry(rest), n - 1);
      LogKept(m, w, Entry(rest), n - 1, e);
      if e !in RunLog(m, w, Entry(rest), n - 1) {
        StepReportsItself(m, w, s, leave, methodId, Run(m, w.before, Entry(rest), n - 1), e);
        if e !in Run(m, w.before, Entry(rest), n).log { assert RanAt(m, w, s, leave, methodId, rest, n - 1, e); }
      } else if Executed(m, w, s, leave, methodId, rest, n - 1, e) {
        var i: nat :| i < n - 1 && RanAt(m, w, s, leave, methodId, rest, i, e);
        assert i < n;
      }
    }
  }

  lemma LogKept<R>(m: Machine<ILInstr, R>, w: Rewriting<ILInstr>, c: Config<ILInstr, R>, n: nat, e: Event)
    requires Simulation.Valid(m, w)
    ensures Run(m, w.before, c, n + 1) == Step(m, w.before, Run(m, w.before, c, n))
    ensures e in Run(m, w.before, c, n).log ==> e in Run(m, w.before, c, n + 1).log
  {
    hide GoodBlock, IsEnterProbe, Flatten, Distinct, SwitchesComplete, Perform;
    var d := Run(m, w.before, c, n);
    assert Run(m, w.before, d, 1) == Step(m, w.before, d) by { assert Run(m, w.before, Step(m, w.before, d), 0) == Step(m, w.before, d); }
    RunAdd(m, w.before, c, n, 1, map[], 0);
  }

  lemma NoLog<R>(m: Machine<ILInstr, R>, w: Rewriting<ILInstr>, c: Config<ILInstr, R>)
    requires Simulation.Valid(m, w)
    ensures RunLog(m, w, c, 0) == []
  {
  }

  /** Tail calls are reported before they start, under the offsets of the call and of the return, and handlers as soon as
      they are entered. */
  lemma TailCallsAndHandlersReported<R>(m: Machine<ILInstr, R>, w: Rewriting<ILInstr>, s: Probes, leave: ProbeCall, methodId: int,
                                        rest: R, n: nat)
    requires Instruments(m, w, s, leave, methodId)
    requires var c := Run(m, w.before, Entry(rest), n); c.Running? && c.pc < |w.before.order|
    ensures Simulation.Valid(m, w)
    ensures var p, log := Run(m, w.before, Entry(rest), n).pc, RunLog(m, w, Entry(rest), n + 1);
            OpAt(w.before, p) == CEE_TAILCALL ==>
              p + 2 < |w.before.order|
              && EventFor(s.tailcall, OffsetAt(w.before, p + 1), methodId) in log
              && EventFor(s.coverage, OffsetAt(w.before, p + 2), methodId) in log
    ensures var p, log := Run(m, w.before, Entry(rest), n).pc, RunLog(m, w, Entry(rest), n + 1);
            HandlerStarts(w.before, p) ==> EventFor(s.throw, OffsetKept(w.before, p), methodId) in log
  {
    hide Instrumented, Truthful, RunLog, StepLog, Step, FiresBefore, FiresAfter, SwitchesComplete, OffsetAt, InTailCall, IsBranchTarget,
         DemandAt, Site, Perform, ValidAt, ValidClause, Distinct, Run;
    InstrumentsIsValid(m, w, s, leave, methodId);
    var c := Run(m, w.before, Entry(rest), n);
    RunLogStep(m, w, Entry(rest), n);
    assert CoveredAt(m.probes, w.before, w.after, w.blocks, s, leave, methodId, c.pc);
    if OpAt(w.before, c.pc) == CEE_TAILCALL {
      StepFires(m, w, c, EventFor(s.tailcall, OffsetAt(w.before, c.pc + 1), methodId));
      StepFires(m, w, c, EventFor(s.coverage, OffsetAt(w.before, c.pc + 2), methodId));
    }
    if HandlerStarts(w.before, c.pc) {
      PosUnique(w.before.order, c.pc);
      assert HandlerCovered(m.probes, w.before, w.after, w.blocks, s, methodId, c.pc);
      StepFires(m, w, c, EventFor(s.throw, OffsetKept(w.before, c.pc), methodId));
    }
  }

  // The returns of tail calls

  /** After `i` steps the original is about to execute the instruction at `p`. */
  ghost predicate Reaches<R>(m: Machine<ILInstr, R>, w: Rewriting<ILInstr>, rest: R, i: nat, p: int)
    requires Simulation.Valid(m, w)
  {
    var c := Run(m, w.before, Entry(rest), i);
    c.Running? && c.pc == p
  }

  ghost predicate ReachedBefore<R>(m: Machine<ILInstr, R>, w: Rewriting<ILInstr>, rest: R, n: nat, p: int)
    requires Simulation.Valid(m, w)
  {
    exists i: nat :: i < n && Reaches(m, w, rest, i, p)
  }

  /** Some probe of the first `n` steps reports offset `o` of the method. */
  ghost predicate Reported<R>(m: Machine<ILInstr, R>, w: Rewriting<ILInstr>, methodId: int, rest: R, n: nat, o: int)
    requires Simulation.Valid(m, w)
  {
    exists e :: e in RunLog(m, w, Entry(rest), n) && e.args == [o, methodId]
  }

  /** The return of a tail call, unless a handler starts there or the original itself calls a probe for it, is reported
      exactly if the `tail.` prefix in front of it has been executed before: a return that is reached by a branch past
      the tail call goes unreported. */
  lemma TailReturnReported<R>(m: Machine<ILInstr, R>, w: Rewriting<ILInstr>, s: Probes, leave: ProbeCall, methodId: int, rest: R,
                              n: nat, k: nat)
    requires Instruments(m, w, s, leave, methodId) && Simulation.Valid(m, w)
    requires 2 <= k < |w.before.order| && Reaches(m, w, rest, n, k) && OpAt(w.before, k - 2) == CEE_TAILCALL
    requires !HandlerStarts(w.before, k)
    requires forall e :: e in Run(m, w.before, Entry(rest), n + 1).log ==> e.args != [OffsetAt(w.before, k), methodId]
    ensures Reported(m, w, methodId, rest, n + 1, OffsetAt(w.before, k)) <==> ReachedBefore(m, w, rest, n, k - 2)
  {
    hide Instruments, Simulation.Valid, RunLog, Run, OffsetAt, HandlerStarts;
    InstrumentsBody(m, w, s, leave, methodId);
    var o, p := OffsetAt(w.before, k), k - 2;
    if Reported(m, w, methodId, rest, n + 1, o) {
      var e :| e in RunLog(m, w, Entry(rest), n + 1) && e.args == [o, methodId];
      ReportsOnlyExecuted(m, w, s, leave, methodId, rest, n + 1, e);
      var i: nat :| i < n + 1 && RanAt(m, w, s, leave, methodId, rest, i, e);
      var p' := Run(m, w.before, Entry(rest), i).pc;
      OwnerOfTailReturn(w.before, k, p', s, leave, methodId, e, OwnEvent(w.before, p', s, leave, methodId, e, true));
      assert Reaches(m, w, rest, i, p);
    }
    if i: nat :| i < n && Reaches(m, w, rest, i, p) {
      TailCallsAndHandlersReported(m, w, s, leave, methodId, rest, i);
      var e := EventFor(s.coverage, o, methodId);
      assert e in RunLog(m, w, Entry(rest), i + 1);
      LogGrows(m, w, Entry(rest), i + 1, n + 1, e);
    }
  }

  lemma InstrumentsBody<R>(m: Machine<ILInstr, R>, w: Rewriting<ILInstr>, s: Probes, leave: ProbeCall, methodId: int)
    requires Instruments(m, w, s, leave, methodId)
    ensures ValidBody(w.before)
  {
  }

  /** An event that reports the return of a tail call belongs to the `tail.` prefix. */
  lemma OwnerOfTailReturn(l: Listing<ILInstr>, k: nat, p: nat, s: Probes, leave: ProbeCall, methodId: int, e: Event, before: bool)
    requires ValidBody(l) && 2 <= k < |l.order| && OpAt(l, k - 2) == CEE_TAILCALL && !HandlerStarts(l, k)
    requires p < |l.order| && OwnEvent(l, p, s, leave, methodId, e, before) && e.args == [OffsetAt(l, k), methodId]
    ensures p == k - 2
  {
    hide OffsetAt, ValidClause, Distinct, HandlerStarts, IsBranchTarget, DemandAt;
    assert ValidAt(l, k - 2);
    if OpAt(l, p) == CEE_TAILCALL {
      assert ValidAt(l, p);
      if e.args[0] == OffsetAt(l, p + 1) { OffsetsDiffer(l, p + 1, k); } else { OffsetsDiffer(l, p + 2, k); }
    } else {
      OffsetsDiffer(l, p, k);
      var q: nat := if DemandedBy(l, s, leave, k, k, e.probe, before) then k else k + 1;
      ProbedIsDemanded(l, s, leave, q);
      SiteNotAfterTail(l, k);
    }
  }

  lemma {:induction false} LogGrows<R>(m: Machine<ILInstr, R>, w: Rewriting<ILInstr>, c: Config<ILInstr, R>, i: nat, n: nat, e: Event)
    requires Simulation.Valid(m, w) && i <= n && e in RunLog(m, w, c, i)
    ensures e in RunLog(m, w, c, n)
    decreases n
  {
    hide Simulation.Valid, RunLog, StepLog;
    if i < n {
      LogGrows(m, w, c, i, n - 1, e);
      RunLogStep(m, w, c, n - 1);
    }
  }

  /** A body with such a return: `br d; tail.; call; d: ret`. */
  predicate JumpsToTailReturn<N(==)>(l: Listing<N>) {
    && WellFormed(l) && |l.order| == 4 && l.clauses == []
    && l.code[l.order[0]] == Instr(CEE_BR, Target(l.order[3])) && l.code[l.order[1]] == Instr(CEE_TAILCALL, Bits(0))
    && l.code[l.order[2]].op == CEE_CALL && l.code[l.order[3]].op == CEE_RET
  }

  /** The body is valid, and whenever the branch is taken, its return is executed and never reported. */
  lemma JumpedReturnUnreported<R>(m: Machine<ILInstr, R>, w: Rewriting<ILInstr>, s: Probes, leave: ProbeCall, methodId: int, rest: R)
    requires Instruments(m, w, s, leave, methodId) && Simulation.Valid(m, w)
    requires JumpsToTailReturn(w.before) && w.before.order[3] in m.entries
    requires m.sem(Fetch(w.before, 0), RegionsAt(w.before, 0), Core([], [], rest)) == Goto(w.before.order[3], Core([], [], rest))
    ensures ValidBody(w.before) && Reaches(m, w, rest, 1, 3)
    ensures OpAt(w.before, 3) == CEE_RET && !Reported(m, w, methodId, rest, 2, OffsetAt(w.before, 3))
  {
    hide Instruments, Simulation.Valid, RunLog, RegionsAt, OffsetAt, ValidBody;
    InstrumentsBody(m, w, s, leave, methodId);
    TakesBranch(m, w, rest);
    TailReturnReported(m, w, s, leave, methodId, rest, 1, 3);
  }

  lemma TakesBranch<R>(m: Machine<ILInstr, R>, w: Rewriting<ILInstr>, rest: R)
    requires Simulation.Valid(m, w) && JumpsToTailReturn(w.before) && w.before.order[3] in m.entries
    requires m.sem(Fetch(w.before, 0), RegionsAt(w.before, 0), Core([], [], rest)) == Goto(w.before.order[3], Core([], [], rest))
    ensures Reaches(m, w, rest, 0, 0) && Reaches(m, w, rest, 1, 3) && Run(m, w.before, Entry(rest), 2).log == []
  {
    hide Simulation.Valid, RegionsAt;
    ValidIsWellFormed(m, w);
    PosUnique(w.before.order, 3);
    var c0: Config<ILInstr, R> := Entry(rest);
    var c1 := Step(m, w.before, c0);
    assert c1 == Running(3, Core([], [], rest), []);
    assert Run(m, w.before, c0, 1) == Run(m, w.before, c1, 0);
    var c2 := Step(m, w.before, c1);
    assert Run(m, w.before, c0, 2) == Run(m, w.before, c1, 1) == Run(m, w.before, c2, 0);
  }

  /** The body is that of a valid method. */
  lemma JumpIsValid<N>(l: Listing<N>)
    requires JumpsToTailReturn(l)
    ensures ValidBody(l) && Refers(l, 0, 3) && AfterTail(l, 3)
  {
    PosUnique(l.order, 3);
    forall p | 0 <= p < 4 ensures ValidAt(l, p) { }
  }

  /** The maximal stack depth computed by the rewriter suffices for the rewritten method. */
  lemma MaxStackSuffices<R>(m: Machine<ILInstr, R>, w: Rewriting<ILInstr>, s: Probes, leave: ProbeCall, methodId: int, rest: R,
                            depth: nat, maxStack: nat, k: nat)
    requires Instruments(m, w, s, leave, methodId)
    requires forall n: nat :: Within(m, w.before, Entry(rest), n, depth)
    requires maxStack >= depth + 5
    ensures Within(m, w.after, Entry(rest), k, maxStack)
  {
    hide Instruments, Simulation.Valid, Within, Labels, Distinct;
    InstrumentsIsValid(m, w, s, leave, methodId);
    ValidIsWellFormed(m, w);
    LabelsLabel(m, w);
    StackBounded(m, w, Labels(w), rest, depth, k);
    Deeper(m, w.after, Entry(rest), k, depth + 4, maxStack);
  }
}
