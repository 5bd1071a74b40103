/** Which probes the written method calls, said of the bytes that are read: by the numbers of opcodes and by byte offsets. */
module Reporting {
  import opened Bytes
  import opened Opcodes
  import opened Listings
  import opened Machine
  import opened Blocks
  import opened Simulation
  import opened MethodBody
  import opened InstructionList
  import opened CoverageProbes
  import opened Codec
  import opened Importing
  import opened ExceptionClauses
  import opened BodyFormat
  import opened Reassembly
  import opened Planning
  import opened RewriteIL
  import opened Instrumentation
  import opened Growth
  import opened Relaxation
  import opened MethodExport
  import opened Accounting
  import opened Numbering
  import opened NumberedRuns
  import opened Correspondence
  import opened WholeMethod
  import opened BytesToBytes

  // What is due

  /** The prefixes `unaligned.`, `volatile.`, `tail.`, `constrained.` and `readonly.`. */
  predicate PrefixNumber(op: int) {
    op == 0x112 || op == 0x113 || op == 0x114 || op == 0x116 || op == 0x11E
  }

  predicate Prefixed(c: Code, p: nat)
    requires p < |c|
  {
    p > 0 && PrefixNumber(c[p - 1].op)
  }

  /** The instruction at `p` is the call or the return of a tail call. */
  predicate BehindTail(c: Code, p: nat)
    requires p < |c|
  {
    (p >= 1 && c[p - 1].op == 0x114) || (p >= 2 && c[p - 2].op == 0x114)
  }

  /** The probe that reports an instruction before it is executed: a branch, `switch` or `leave`, a `ret`, a `throw` or
      `rethrow`, an `endfinally` or `endfilter`, a `stsfld`. */
  predicate Announces(c: Code, s: Probes, isMain: bool, p: nat, probe: int)
    requires p < |c|
  {
    var op := c[p].op;
    || ((0x2B <= op <= 0x45 || op == 0xDD || op == 0xDE) && probe == s.branch.addr)
    || (op == 0x2A && !BehindTail(c, p) && probe == (if isMain then s.leaveMain.addr else s.leave.addr))
    || ((op == 0x7A || op == 0x11A) && probe == s.throw.addr)
    || ((op == 0xDC || op == 0x111) && probe == s.coverage.addr)
    || (op == 0x80 && probe == s.stsfld.addr)
  }

  /** Some handler of the method starts with the instruction at `p`. */
  predicate HandlerAt(b: Body, p: nat)
    requires Importable(b) && p < |Decode(b.code).code|
  {
    exists i :: 0 <= i < |b.clauses| && b.clauses[i].handlerOffset == Off(Decode(b.code).code, p)
  }

  /** Executing the instruction at `p` calls the probe with offset `o`, before anything else. */
  predicate DueBefore(b: Body, s: Probes, isMain: bool, p: nat, probe: int, o: int)
    requires Importable(b) && p < |Decode(b.code).code|
  {
    var c := Decode(b.code).code;
    || (Announces(c, s, isMain, p, probe) && !(c[p].op == 0x80 && Prefixed(c, p)) && o == Off(c, p))
    || (p + 1 < |c| && c[p + 1].op == 0x80 && PrefixNumber(c[p].op) && probe == s.stsfld.addr && o == Off(c, p))
    || (c[p].op == 0x114 && p + 2 < |c|
        && ((probe == s.tailcall.addr && o == Off(c, p + 1)) || (probe == s.coverage.addr && o == Off(c, p + 2))))
    || (HandlerAt(b, p) && probe == s.throw.addr && o == if c[p].op == 0x114 && p + 2 < |c| then Off(c, p + 2) else Off(c, p))
  }

  /** Once the instruction at `p`, a call outside tail calls, has completed, it is reported. */
  predicate DueAfter(b: Body, s: Probes, p: nat, probe: int, o: int)
    requires Importable(b) && p < |Decode(b.code).code|
  {
    var c := Decode(b.code).code;
    var op := c[p].op;
    (op == 0x28 || op == 0x29 || op == 0x6F || op == 0x73) && !BehindTail(c, p) && probe == s.call.addr && o == Off(c, p)
  }

  /** The operand of a branch or of an arm of a `switch` refers to the instruction at `t`. */
  predicate LeadsTo(c: Code, q: nat, t: nat) {
    && q < |c| && (0x2B <= c[q].op <= 0x44 || c[q].op == 0xDD || c[q].op == 0xDE || c[q].op == CEE_SWITCH_ARG)
    && c[q].arg == Target(t)
  }

  /** Falling through from the instruction at `p`, outside tail calls, leads into the target of some branch. */
  ghost predicate FallsIntoTarget(b: Body, p: nat)
    requires Importable(b) && p < |Decode(b.code).code|
  {
    var c := Decode(b.code).code;
    p + 1 < |c| && c[p].op != 0x114 && !BehindTail(c, p) && IsLedTo(c, p + 1)
  }

  ghost predicate IsLedTo(c: Code, t: nat) {
    exists q: nat :: LeadsTo(c, q, t)
  }

  /** The offset that the probe at the start reports. */
  function StartOffset(c: Code): int {
    if |c| >= 2 && c[0].op == 0x114 then Off(c, 2) else 0
  }

  // From the list to the bytes

  lemma SameAt(l: Listing<ILInstr>, b: Body, p: nat)
    requires Importable(b) && NumberedAs(l, Denoted(b)) && p <= |l.order|
    ensures WellFormed(l) && |l.order| == |Decode(b.code).code| && OffsetAt(l, p) == Off(Decode(b.code).code, p)
    ensures p < |l.order| ==> OpAt(l, p) == Decode(b.code).code[p].op
  {
    hide Decode, Off;
    NumberedCode(l, b);
    OffsetsAgree(l, p);
  }

  /** The instructions around `p` are those that the bytes denote. */
  lemma {:induction false} SameAround(l: Listing<ILInstr>, b: Body, p: nat)
    requires Importable(b) && NumberedAs(l, Denoted(b)) && p < |l.order|
    ensures WellFormed(l) && |l.order| == |Decode(b.code).code|
    ensures var c := Decode(b.code).code; OpAt(l, p) == c[p].op && OffsetAt(l, p) == Off(c, p)
    ensures OpAt(l, p - 1) == if p >= 1 then Decode(b.code).code[p - 1].op else -1
    ensures OpAt(l, p - 2) == if p >= 2 then Decode(b.code).code[p - 2].op else -1
    ensures p + 1 < |l.order| ==> OpAt(l, p + 1) == Decode(b.code).code[p + 1].op && OffsetAt(l, p + 1) == Off(Decode(b.code).code, p + 1)
    ensures p + 2 < |l.order| ==> OpAt(l, p + 2) == Decode(b.code).code[p + 2].op && OffsetAt(l, p + 2) == Off(Decode(b.code).code, p + 2)
    ensures InTailCall(l, p) <==> Decode(b.code).code[p].op == 0x114 || BehindTail(Decode(b.code).code, p)
  {
    hide Decode, Off, NumberedAs, OffsetAt;
    SameAt(l, b, p);
    if p >= 1 { SameAt(l, b, p - 1); }
    if p >= 2 { SameAt(l, b, p - 2); }
    if p + 1 < |l.order| { SameAt(l, b, p + 1); }
    if p + 2 < |l.order| { SameAt(l, b, p + 2); }
  }

  lemma HandlersSame(l: Listing<ILInstr>, b: Body, p: nat)
    requires Importable(b) && NumberedAs(l, Denoted(b)) && ValidBody(l) && p < |l.order| && |b.code| < TWO_TO_THE_31
    ensures p < |Decode(b.code).code| && (HandlerStarts(l, p) <==> HandlerAt(b, p))
  {
    hide Decode, Off, NumberedAs, ValidAt, Imports, IndexedClause, Indexed, Distinct;
    var c := Decode(b.code).code;
    SameAt(l, b, p);
    NumberedCode(l, b);
    EncodeDecode(b.code);
    if HandlerStarts(l, p) {
      var i :| 0 <= i < |l.clauses| && l.clauses[i].handlerBegin == l.order[p];
      HandlerIndex(l, b, c, i, p);
    }
    if HandlerAt(b, p) {
      var i :| 0 <= i < |b.clauses| && b.clauses[i].handlerOffset == Off(c, p);
      HandlerIndex(l, b, c, i, p);
    }
  }

  lemma HandlerIndex(l: Listing<ILInstr>, b: Body, c: Code, i: nat, p: nat)
    requires WellFormed(l) && ValidBody(l) && Shaped(c) && |c| == |l.order| && p < |c| && b.Body? && i < |l.clauses| == |b.clauses|
    requires Imports(c, b.clauses[i]).Resolution? && IndexedClause(l, l.clauses[i]) == Imports(c, b.clauses[i]).clause
    ensures l.clauses[i].handlerBegin == l.order[p] <==> b.clauses[i].handlerOffset == Off(c, p)
  {
    hide Off, ValidAt, Shaped;
    var k: nat := IndexOf(c, b.clauses[i].handlerOffset, |c|);
    assert ValidClause(l, l.clauses[i]);
    PlaceInside(l, l.clauses[i].handlerBegin);
    PosUnique(l.order, p);
    PlaceInside(l, l.order[p]);
    if b.clauses[i].handlerOffset == Off(c, p) {
      if k < p { OffGrowsStrictly(c, k, p); }
      if p < k { OffGrowsStrictly(c, p, k); }
    }
  }

  lemma TargetsSame(l: Listing<ILInstr>, b: Body, q: nat, t: nat)
    requires Importable(b) && NumberedAs(l, Denoted(b)) && t < |l.order|
    ensures Refers(l, q, t) <==> LeadsTo(Decode(b.code).code, q, t)
  {
    hide Decode, NumberedAs;
    var c := Decode(b.code).code;
    NumberedCode(l, b);
    if q < |l.order| {
      SameAt(l, b, q);
      PosUnique(l.order, t);
      PlaceInside(l, l.order[t]);
      assert c[q] == Indexed(l)[q];
      var x := l.code[l.order[q]];
      if x.arg.Target? {
        PlaceInside(l, x.arg.node);
        HasOperand(x.op);
      }
    }
  }

  lemma HasOperand(op: int)
    ensures HasTarget(op) ==> OperandSize(op) > 0
  {
  }

  lemma FallsSame(l: Listing<ILInstr>, b: Body, p: nat)
    requires Importable(b) && NumberedAs(l, Denoted(b)) && p < |l.order|
    ensures p < |Decode(b.code).code|
    ensures WellFormed(l) && (FallsIntoTarget(b, p) <==> IsBranchTarget(l, p + 1) && !InTailCall(l, p))
    ensures FallsIntoTarget(b, p) ==> p + 1 < |l.order|
  {
    hide Decode, NumberedAs, InTailCall, BehindTail, IsLedTo;
    SameAround(l, b, p);
    var c := Decode(b.code).code;
    if p + 1 < |l.order| { LedToSame(l, b, p + 1); }
  }

  lemma LedToSame(l: Listing<ILInstr>, b: Body, t: nat)
    requires Importable(b) && NumberedAs(l, Denoted(b)) && t < |l.order|
    ensures WellFormed(l) && (IsLedTo(Decode(b.code).code, t) <==> IsBranchTarget(l, t))
  {
    hide Decode, NumberedAs, Refers, LeadsTo;
    var c := Decode(b.code).code;
    SameAt(l, b, t);
    forall q: nat ensures Refers(l, q, t) <==> LeadsTo(c, q, t) { TargetsSame(l, b, q, t); }
    if IsBranchTarget(l, t) { var q: nat :| Refers(l, q, t); assert LeadsTo(c, q, t); }
    if IsLedTo(c, t) { var q: nat :| LeadsTo(c, q, t); assert Refers(l, q, t); }
  }

  // The probes of one instruction

  /** The instruction in front of which a probe for the one at `q` stands demands it. */
  lemma AnnouncedIsDemanded(l: Listing<ILInstr>, b: Body, s: Probes, isMain: bool, q: nat, probe: int)
    requires Importable(b) && NumberedAs(l, Denoted(b)) && q < |l.order| && ValidBody(l)
    ensures WellFormed(l) && q < |Decode(b.code).code|
    ensures var c, d := Decode(b.code).code, DemandAt(l, s, LeaveProbe(s, isMain), q);
            && (Announces(c, s, isMain, q, probe) <==> d.Probe? && d.before && d.probe.addr == probe)
            && (DueAfter(b, s, q, probe, Off(c, q)) <==> d.Probe? && !d.before && d.probe.addr == probe)
            && Site(l, q) == if c[q].op == 0x80 && Prefixed(c, q) then q - 1 else q
  {
    hide Decode, Off, NumberedAs, ValidClause, Distinct, OffsetAt;
    SameAround(l, b, q);
    assert ValidAt(l, q);
    if q >= 1 { assert ValidAt(l, q - 1); }
    if q >= 2 { assert ValidAt(l, q - 2); }
  }

  /** What an instruction reports is due. */
  lemma OwnIsDue(l: Listing<ILInstr>, b: Body, s: Probes, isMain: bool, p: nat, probe: int, o: int, before: bool)
    requires Importable(b) && NumberedAs(l, Denoted(b)) && p < |l.order| && ValidBody(l) && |b.code| < TWO_TO_THE_31
    requires WellFormed(l) && OwnReport(l, s, LeaveProbe(s, isMain), p, probe, o, before)
    ensures p < |Decode(b.code).code|
    ensures before ==> DueBefore(b, s, isMain, p, probe, o)
    ensures !before ==>
              DueAfter(b, s, p, probe, o) || (FallsIntoTarget(b, p) && probe == s.coverage.addr && o == Off(Decode(b.code).code, p))
  {
    hide Decode, Off, NumberedAs, ValidAt, ValidClause, Distinct, OffsetAt, DemandAt, Announces, InTailCall, IsBranchTarget, HandlerStarts,
         HandlerAt, FallsIntoTarget, BehindTail, Site;
    SameAround(l, b, p);
    HandlersSame(l, b, p);
    FallsSame(l, b, p);
    AnnouncedIsDemanded(l, b, s, isMain, p, probe);
    if p + 1 < |l.order| {
      AnnouncedIsDemanded(l, b, s, isMain, p + 1, probe);
      SameAround(l, b, p + 1);
      StsfldAnnounced(Decode(b.code).code, s, isMain, p + 1, probe);
    }
  }

  lemma StsfldAnnounced(c: Code, s: Probes, isMain: bool, q: nat, probe: int)
    requires q < |c|
    ensures c[q].op == 0x80 ==> (Announces(c, s, isMain, q, probe) <==> probe == s.stsfld.addr)
  {
  }

  /** What is due is reported in the run. */
  lemma DueIsLogged<R>(m: Machine<ILInstr, R>, w: Rewriting<ILInstr>, b: Body, s: Probes, methodId: int, isMain: bool, rest: R, n: nat,
                       probe: int, o: int)
    requires Instruments(m, w, s, LeaveProbe(s, isMain), methodId) && WellFormed(w.before)
    requires Importable(b) && NumberedAs(w.before, Denoted(b)) && |b.code| < TWO_TO_THE_31
    requires var c := Run(m, w.before, Entry(rest), n); c.Running? && c.pc < |w.before.order|
    ensures Simulation.Valid(m, w) && |Decode(b.code).code| == |w.before.order|
    ensures var p, log := Run(m, w.before, Entry(rest), n).pc, RunLog(m, w, Entry(rest), n + 1);
            DueBefore(b, s, isMain, p, probe, o) ==> Event(probe, [o, methodId]) in log
    ensures var c, log := Run(m, w.before, Entry(rest), n), RunLog(m, w, Entry(rest), n + 1);
            Next(m, w, c).outcome.Fall? && DueAfter(b, s, c.pc, probe, o) ==> Event(probe, [o, methodId]) in log
    ensures var c, log := Run(m, w.before, Entry(rest), n), RunLog(m, w, Entry(rest), n + 1);
            Next(m, w, c).outcome.Fall? && FallsIntoTarget(b, c.pc) ==>
              exists e: Event :: e in log && e.args == [Off(Decode(b.code).code, c.pc), methodId]
  {
    hide Decode, Off, NumberedAs, Run, RunLog, OffsetAt, DemandAt, Announces, InTailCall, IsBranchTarget, HandlerStarts, HandlerAt,
         FallsIntoTarget, BehindTail, Site, Simulation.Valid, Instruments, Perform, DueAfter;
    var l, p, leave := w.before, Run(m, w.before, Entry(rest), n).pc, LeaveProbe(s, isMain);
    InstrumentsBody(m, w, s, leave, methodId);
    CoverageComplete(m, w, s, leave, methodId, rest, n);
    TailCallsAndHandlersReported(m, w, s, leave, methodId, rest, n);
    SameAround(l, b, p);
    HandlersSame(l, b, p);
    FallsSame(l, b, p);
    AnnouncedIsDemanded(l, b, s, isMain, p, probe);
    CallOffset(b, s, p, probe, o);
    if p + 1 < |l.order| {
      AnnouncedIsDemanded(l, b, s, isMain, p + 1, probe);
      SameAround(l, b, p + 1);
      StsfldAnnounced(Decode(b.code).code, s, isMain, p + 1, probe);
    }
  }

  lemma CallOffset(b: Body, s: Probes, p: nat, probe: int, o: int)
    requires Importable(b) && p < |Decode(b.code).code|
    ensures DueAfter(b, s, p, probe, o) <==> DueAfter(b, s, p, probe, Off(Decode(b.code).code, p)) && o == Off(Decode(b.code).code, p)
    ensures DueAfter(b, s, p, probe, o) ==> Decode(b.code).code[p].op != 0x80
  {
    hide Decode;
  }

  // The probes of a run

  /** A machine for the nodes of the list that runs like the method whose bytes were read. */
  lemma NodesRunAlike<R(!new)>(m0: Machine<nat, R>, m2: Machine<nat, R>, b: Body, bytes: seq<byte>, w: Rewriting<ILInstr>, s: Probes,
                               methodId: int, isMain: bool, rest: R, n: nat)
    requires Achieved(b, bytes, w, m0.probes, s, methodId, isMain) && Proper(b) && Fitting(b, m0.probes, methodId)
    requires Corresponds(m0, m2, StartsOf(w))
    ensures Importable(b) && WellFormed(w.before) && NumberedAs(w.before, Denoted(b)) && |b.code| < TWO_TO_THE_31
    ensures |w.before.order| == |Denoted(b).order| == |Decode(b.code).code| > 0
    ensures Instruments(OnNodes(w.before, m0), w, s, LeaveProbe(s, isMain), methodId)
    ensures Run(m0, Denoted(b), Entry(rest), n) == UnnamedConfig(Run(OnNodes(w.before, m0), w.before, Entry(rest), n))
    ensures var c := Run(OnNodes(w.before, m0), w.before, Entry(rest), n);
            c.Running? && c.pc < |w.before.order| ==>
              (Perform(OnNodes(w.before, m0), w.before, c.pc, c.core).outcome.Fall? <==>
               Perform(m0, Denoted(b), c.pc, Unnamed(c.core)).outcome.Fall?)
  {
    hide ReadBody, Corresponds, Alike, Instruments, Run, Itself, OnNodes, StartsOf, SameLabels, Perform, Decode, Indexed, AllCovered, Truthful,
         Exported, ClausesInside, EnterEvents, ValidBody, ExtraDepth, NodeCount, Relaxed, FirstOffset, BitsOnly;
    BothAlike(m0, m2, b, bytes, w, s, methodId, isMain);
    NumberedCode(w.before, b);
    NotEmptyCode(b);
    var m := OnNodes(w.before, m0);
    AlikeRenders(m, w.before, m0, Denoted(b));
    LabelsNumbered(w, Denoted(b));
    EntryAlike<R>(rest);
    RunAlike(m, w.before, m0, Denoted(b), w.before, Itself(w.before), Itself(Denoted(b)), Entry(rest), n, 0);
    var c := Run(m, w.before, Entry(rest), n);
    if c.Running? && c.pc < |w.before.order| { FallAlike(m, w.before, m0, Denoted(b), c.pc, c.core); }
  }

  lemma FallAlike<N, R(!new)>(m: Machine<N, R>, l: Listing<N>, md: Machine<nat, R>, d: Listing<nat>, p: nat, core: Core<N, R>)
    requires Alike(m, l, md, d) && p < |l.order| && BitsOnly(core)
    ensures WellFormed(l) && WellFormed(d) && p < |d.order|
    ensures Perform(m, l, p, core).outcome.Fall? <==> Perform(md, d, p, Unnamed(core)).outcome.Fall?
  {
    hide Perform, BitsOnly, Unnamed, RendersInstr, AlikeAt;
    PerformAlike(m, l, md, d, p, core);
  }

  lemma NotEmptyCode(b: Body)
    requires b.Body? && Decode(b.code).Decoded? && 0 < |b.code| < TWO_TO_THE_31
    ensures |Decode(b.code).code| > 0
  {
    hide Decode, Encode, Canonical;
    EncodeDecode(b.code);
    NotEmpty(b.code, Decode(b.code).code);
  }

  /** The call of the probe at the start. */
  function StartEvent(b: Body, s: Probes, methodId: int, isMain: bool): Event
    requires Importable(b)
  {
    Event(if isMain then s.enterMain.addr else s.enter.addr, [StartOffset(Decode(b.code).code), methodId, 0])
  }

  lemma StartIsCalled(b: Body, bytes: seq<byte>, w: Rewriting<ILInstr>, probes: map<int, nat>, s: Probes, methodId: int, isMain: bool)
    requires Achieved(b, bytes, w, probes, s, methodId, isMain) && |w.before.order| > 0
    ensures EnterEvents(probes, w.after.code, w.enter) == [StartEvent(b, s, methodId, isMain)]
  {
    hide Decode, Exported, ClausesInside, AllCovered, Truthful, ValidBody, ExtraDepth, NodeCount, Relaxed, NumberedAs, EnterEvents, Rewritten, Off;
    SameAt(w.before, b, 0);
    if |w.before.order| >= 2 { SameAt(w.before, b, 2); }
  }

  /** What the `n`-th step of the method that was read is due is in the log, and what falls through into a branch target is
      reported there too. */
  ghost predicate ReportsStep<R>(m0: Machine<nat, R>, b: Body, s: Probes, methodId: int, isMain: bool, rest: R, n: nat, log: seq<Event>)
    requires Importable(b)
  {
    var c := Run(m0, Denoted(b), Entry(rest), n);
    c.Running? && c.pc < |Decode(b.code).code| ==>
      && (forall probe, o :: DueBefore(b, s, isMain, c.pc, probe, o) ==> Event(probe, [o, methodId]) in log)
      && (Perform(m0, Denoted(b), c.pc, c.core).outcome.Fall? ==>
            && (forall probe, o :: DueAfter(b, s, c.pc, probe, o) ==> Event(probe, [o, methodId]) in log)
            && (FallsIntoTarget(b, c.pc) ==> exists e: Event :: e in log && e.args == [Off(Decode(b.code).code, c.pc), methodId]))
  }

  lemma StepIsLogged<R(!new)>(m0: Machine<nat, R>, m2: Machine<nat, R>, b: Body, bytes: seq<byte>, w: Rewriting<ILInstr>, s: Probes,
                              methodId: int, isMain: bool, rest: R, n: nat)
    requires Achieved(b, bytes, w, m0.probes, s, methodId, isMain) && Proper(b) && Fitting(b, m0.probes, methodId)
    requires Corresponds(m0, m2, StartsOf(w))
    ensures Importable(b) && Simulation.Valid(OnNodes(w.before, m0), w)
    ensures ReportsStep(m0, b, s, methodId, isMain, rest, n, RunLog(OnNodes(w.before, m0), w, Entry(rest), n + 1))
  {
    hide Achieved, ReadBody, Corresponds, Instruments, Run, RunLog, OnNodes, StartsOf, Perform, Decode, Off, DueBefore, DueAfter, FallsIntoTarget,
         Simulation.Valid, Proper, Fitting, Denoted, Importable, NumberedAs, Unnamed;
    NodesRunAlike(m0, m2, b, bytes, w, s, methodId, isMain, rest, n);
    var m := OnNodes(w.before, m0);
    InstrumentsIsValid(m, w, s, LeaveProbe(s, isMain), methodId);
    var c := Run(m, w.before, Entry(rest), n);
    if c.Running? && c.pc < |w.before.order| {
      forall probe, o
        ensures DueBefore(b, s, isMain, c.pc, probe, o) ==> Event(probe, [o, methodId]) in RunLog(m, w, Entry(rest), n + 1)
        ensures Next(m, w, c).outcome.Fall? && DueAfter(b, s, c.pc, probe, o) ==> Event(probe, [o, methodId]) in RunLog(m, w, Entry(rest), n + 1)
      {
        DueIsLogged(m, w, b, s, methodId, isMain, rest, n, probe, o);
      }
      DueIsLogged(m, w, b, s, methodId, isMain, rest, n, 0, 0);
    }
  }

  lemma MoreLog<R>(m0: Machine<nat, R>, b: Body, s: Probes, methodId: int, isMain: bool, rest: R, n: nat, log: seq<Event>, e: Event)
    requires Importable(b) && ReportsStep(m0, b, s, methodId, isMain, rest, n, log)
    ensures ReportsStep(m0, b, s, methodId, isMain, rest, n, [e] + log)
  {
    hide Run, Perform, Decode, Off, DueBefore, DueAfter, FallsIntoTarget, Denoted;
  }

  /** From bytes to bytes, every run of the method that is written starts with the call of the probe for entering it; and
      whatever is due for an instruction that the method that was read executes is reported in the course of it: to the probe
      and under the offset that its opcode demands. */
  lemma EveryEndReported<R(!new)>(m0: Machine<nat, R>, m2: Machine<nat, R>, b: Body, bytes: seq<byte>, w: Rewriting<ILInstr>, s: Probes,
                                  methodId: int, isMain: bool, rest: R, n: nat)
    requires Achieved(b, bytes, w, m0.probes, s, methodId, isMain) && Proper(b) && Fitting(b, m0.probes, methodId)
    requires Corresponds(m0, m2, StartsOf(w))
    ensures Importable(b) && Importable(ReadBody(bytes))
    ensures exists k: nat :: k > n && LogReports(m0, m2, b, ReadBody(bytes), s, methodId, isMain, rest, n, k)
  {
    hide Achieved, ReadBody, Corresponds, Run, RunLog, OnNodes, StartsOf, Simulation.Valid, Proper, Fitting, Denoted, Importable, Trace, Origins,
         Itself, ReportsStep, EnterEvents;
    BytesPreserveMeaning(m0, m2, b, bytes, w, s, methodId, isMain, rest, n + 1);
    StepIsLogged(m0, m2, b, bytes, w, s, methodId, isMain, rest, n);
    NodesRunAlike(m0, m2, b, bytes, w, s, methodId, isMain, rest, n);
    StartIsCalled(b, bytes, w, m0.probes, s, methodId, isMain);
    var k: nat :| k >= n + 1 && SameBytesRun(m0, m2, b, ReadBody(bytes), w, rest, n + 1, k);
    var log := RunLog(OnNodes(w.before, m0), w, Entry(rest), n + 1);
    SameProbes(w.before, m0);
    MoreLog(m0, b, s, methodId, isMain, rest, n, log, StartEvent(b, s, methodId, isMain));
    assert LogReports(m0, m2, b, ReadBody(bytes), s, methodId, isMain, rest, n, k);
  }

  lemma SameProbes<N, R>(l: Listing<N>, m0: Machine<nat, R>)
    ensures OnNodes(l, m0).probes == m0.probes
  {
  }

  ghost predicate LogReports<R>(m0: Machine<nat, R>, m2: Machine<nat, R>, b: Body, b2: Body, s: Probes, methodId: int, isMain: bool,
                                rest: R, n: nat, k: nat)
    requires Importable(b) && Importable(b2)
  {
    var log := Run(m2, Denoted(b2), Entry(rest), k).log;
    log != [] && log[0] == StartEvent(b, s, methodId, isMain) && ReportsStep(m0, b, s, methodId, isMain, rest, n, log)
  }

  /** The event was due for the instruction that the method that was read executes in step `i`. */
  ghost predicate DueAt<R>(m0: Machine<nat, R>, b: Body, s: Probes, methodId: int, isMain: bool, rest: R, i: nat, e: Event)
    requires Importable(b)
  {
    var c := Run(m0, Denoted(b), Entry(rest), i);
    && c.Running? && c.pc < |Decode(b.code).code| && |e.args| == 2 && e.args[1] == methodId
    && (|| DueBefore(b, s, isMain, c.pc, e.probe, e.args[0])
        || (Perform(m0, Denoted(b), c.pc, c.core).outcome.Fall?
            && (|| DueAfter(b, s, c.pc, e.probe, e.args[0])
                || (FallsIntoTarget(b, c.pc) && e.probe == s.coverage.addr && e.args[0] == Off(Decode(b.code).code, c.pc)))))
  }

  lemma RanIsDue<R(!new)>(m0: Machine<nat, R>, m2: Machine<nat, R>, b: Body, bytes: seq<byte>, w: Rewriting<ILInstr>, s: Probes,
                          methodId: int, isMain: bool, rest: R, i: nat, e: Event)
    requires Achieved(b, bytes, w, m0.probes, s, methodId, isMain) && Proper(b) && Fitting(b, m0.probes, methodId)
    requires Corresponds(m0, m2, StartsOf(w)) && Simulation.Valid(OnNodes(w.before, m0), w)
    requires RanAt(OnNodes(w.before, m0), w, s, LeaveProbe(s, isMain), methodId, rest, i, e)
    ensures Importable(b) && DueAt(m0, b, s, methodId, isMain, rest, i, e)
  {
    hide Achieved, ReadBody, Corresponds, Run, OnNodes, StartsOf, Simulation.Valid, Proper, Fitting, Denoted, Importable, Instruments, Decode, Off,
         DueBefore, DueAfter, FallsIntoTarget, OwnReport, NumberedAs, Perform, Unnamed;
    NodesRunAlike(m0, m2, b, bytes, w, s, methodId, isMain, rest, i);
    InstrumentsBody(OnNodes(w.before, m0), w, s, LeaveProbe(s, isMain), methodId);
    var p := Run(OnNodes(w.before, m0), w.before, Entry(rest), i).pc;
    OwnIsDue(w.before, b, s, isMain, p, e.probe, e.args[0], OwnEvent(w.before, p, s, LeaveProbe(s, isMain), methodId, e, true));
  }

  lemma {:induction false} RunKeepsLog<R>(m: Machine<nat, R>, l: Listing<nat>, c: Config<nat, R>, k: nat, e: Event)
    requires WellFormed(l) && e in c.log
    ensures e in Run(m, l, c, k).log
    decreases k
  {
    hide Perform;
    if k > 0 { RunKeepsLog(m, l, Step(m, l, c), k - 1, e); }
  }

  /** Nothing else is reported: whatever call of a probe a run of the written method has made, it is the one for entering the
      method, or the original method makes it itself, or it was due for an instruction that this has executed; and completed,
      if it is reported afterwards. */
  lemma NothingElseReported<R(!new)>(m0: Machine<nat, R>, m2: Machine<nat, R>, b: Body, bytes: seq<byte>, w: Rewriting<ILInstr>, s: Probes,
                                     methodId: int, isMain: bool, rest: R, k: nat, e: Event)
    requires Achieved(b, bytes, w, m0.probes, s, methodId, isMain) && Proper(b) && Fitting(b, m0.probes, methodId)
    requires Corresponds(m0, m2, StartsOf(w))
    requires Importable(b) && Importable(ReadBody(bytes)) && e in Run(m2, Denoted(ReadBody(bytes)), Entry(rest), k).log
    ensures || e == StartEvent(b, s, methodId, isMain) || e in Run(m0, Denoted(b), Entry(rest), k).log
            || exists i: nat :: i < k && DueAt(m0, b, s, methodId, isMain, rest, i, e)
  {
    hide Achieved, ReadBody, Corresponds, Run, RunLog, OnNodes, StartsOf, Simulation.Valid, Proper, Fitting, Denoted, Importable, Trace, Origins,
         Itself, EnterEvents, Instruments, RanAt, DueAt, Perform, Unnamed, Decode;
    var d2, m := Denoted(ReadBody(bytes)), OnNodes(w.before, m0);
    BytesPreserveMeaning(m0, m2, b, bytes, w, s, methodId, isMain, rest, k);
    NodesRunAlike(m0, m2, b, bytes, w, s, methodId, isMain, rest, k);
    StartIsCalled(b, bytes, w, m0.probes, s, methodId, isMain);
    SameProbes(w.before, m0);
    var k': nat :| k' >= k && SameBytesRun(m0, m2, b, ReadBody(bytes), w, rest, k, k');
    RunAdd(m2, d2, Entry(rest), k, k' - k, map[], 0);
    RunKeepsLog(m2, d2, Run(m2, d2, Entry(rest), k), k' - k, e);
    if e != StartEvent(b, s, methodId, isMain) {
      assert e in RunLog(m, w, Entry(rest), k);
      ReportsOnlyExecuted(m, w, s, LeaveProbe(s, isMain), methodId, rest, k, e);
      if Executed(m, w, s, LeaveProbe(s, isMain), methodId, rest, k, e) {
        var i: nat :| i < k && RanAt(m, w, s, LeaveProbe(s, isMain), methodId, rest, i, e);
        RanIsDue(m0, m2, b, bytes, w, s, methodId, isMain, rest, i, e);
      }
    }
  }
}
