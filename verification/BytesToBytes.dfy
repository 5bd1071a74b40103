/** What rewriting does to a method, from the bytes that are read to the bytes that are written. */
module BytesToBytes {
  import opened Bytes
  import opened Opcodes
  import opened Listings
  import opened Machine
  import opened Blocks
  import opened Simulation
  import opened Growth
  import opened MethodBody
  import opened InstructionList
  import opened Codec
  import opened Relaxation
  import opened Importing
  import opened Exporting
  import opened ExceptionClauses
  import opened BodyFormat
  import opened Reassembly
  import opened CoverageProbes
  import opened Planning
  import opened Weaving
  import opened RewriteIL
  import opened Instrumentation
  import opened MethodExport
  import opened Accounting
  import opened Numbering
  import opened NumberedRuns
  import opened Correspondence
  import opened WrittenBody
  import opened WholeMethod

  // The written body

  /** Where the instructions of the method that is read are in the method that is written. */
  function StartsOf(w: Rewriting<ILInstr>): seq<nat> {
    seq(|w.blocks|, k requires 0 <= k < |w.blocks| => w.At(k))
  }

  /** Method ids and addresses of probes fit their operands, and the code is that of a method. */
  ghost predicate Fitting(b: Body, probes: map<int, nat>, methodId: int) {
    && b.Body? && 0 < |b.code| < TWO_TO_THE_31 && InSigned(methodId, 4) && forall a :: a in probes ==> InSigned(a, 8)
  }

  lemma {:induction false} OffsetsFit(l: Listing<ILInstr>, k: nat)
    requires WellFormed(l) && CodeSize(Indexed(l)) < TWO_TO_THE_31 && k <= |l.order|
    ensures InSigned(OffsetAt(l, k), 4)
  {
    hide Indexed, Off;
    OffsetsAgree(l, k);
    OffGrows(Indexed(l), k, |l.order|);
    Powers();
  }

  lemma OwnEventFits(l: Listing<ILInstr>, k: nat, s: Probes, leave: ProbeCall, methodId: int, e: Event, before: bool)
    requires WellFormed(l) && CodeSize(Indexed(l)) < TWO_TO_THE_31 && InSigned(methodId, 4) && k < |l.order| && OwnEvent(l, k, s, leave,
             methodId, e, before)
    ensures EventFits(e)
  {
    hide InSigned, OffsetAt, Indexed, Off, AfterTail, HandlerStarts;
    OffsetsFit(l, k);
    if k + 2 < |l.order| {
      OffsetsFit(l, k + 1);
      OffsetsFit(l, k + 2);
    }
    assert forall a :: a in e.args ==> a == e.args[0] || a == e.args[1];
  }

  lemma AchievedFits(b: Body, bytes: seq<byte>, w: Rewriting<ILInstr>, probes: map<int, nat>, s: Probes, methodId: int, isMain: bool)
    requires Achieved(b, bytes, w, probes, s, methodId, isMain) && Fitting(b, probes, methodId) && |w.before.order| > 0
    requires WellFormed(w.before) && CodeSize(Indexed(w.before)) < TWO_TO_THE_31
    ensures ProbesFit(probes, w)
  {
    hide InSigned, OffsetAt, Indexed, Off, EventFits, Fired, OwnEvent, IsEnterProbe, GoodBlock, AllCovered, Exported, NumberedAs, ClausesInside,
         Denoted, Importable, ValidBody, Shaped, Targeted, Relaxed, ExtraDepth, NodeCount, Charge, SameClauses;
    OffsetsFit(w.before, 0);
    if |w.before.order| >= 2 { OffsetsFit(w.before, 2); }
    forall e | e in EnterEvents(probes, w.after.code, w.enter) ensures EventFits(e) { FirstFits(w.before, e, methodId); }
    forall k, e | 0 <= k < |w.blocks| && e in Fired(probes, w.after.code, w.blocks[k].pre) ensures EventFits(e) {
      assert Fires(probes, w.after, w.blocks[k], e, true);
      OwnEventFits(w.before, k, s, LeaveProbe(s, isMain), methodId, e, true);
    }
    forall k, e | 0 <= k < |w.blocks| && e in Fired(probes, w.after.code, w.blocks[k].post) ensures EventFits(e) {
      assert Fires(probes, w.after, w.blocks[k], e, false);
      OwnEventFits(w.before, k, s, LeaveProbe(s, isMain), methodId, e, false);
    }
  }

  lemma FirstFits(l: Listing<ILInstr>, e: Event, methodId: int)
    requires WellFormed(l) && |l.order| > 0 && InSigned(OffsetAt(l, 0), 4) && (|l.order| >= 2 ==> InSigned(OffsetAt(l, 2), 4))
    requires InSigned(methodId, 4) && e.args == [FirstOffset(l), methodId, 0]
    ensures EventFits(e)
  {
    assert InSigned(0, 4) by { Powers(); }
    hide InSigned;
    assert forall a :: a in e.args ==> a == e.args[0] || a == e.args[1] || a == e.args[2];
  }

  /** The clauses that are read start and end with instructions. */
  lemma ReadStartsClean(b: Body, l: Listing<ILInstr>, i: nat)
    requires Importable(b) && NumberedAs(l, Denoted(b)) && ValidBody(l) && i < |l.clauses|
    ensures WellFormed(l) && StartsClean(l, l.clauses[i])
  {
    hide Decode, Indexed, Place, ValidAt, IndexOf, Denoted, NumberedAs;
    NumberedCode(l, b);
    var x, f := l.clauses[i], b.clauses[i];
    assert ValidClause(l, x) && IndexedClause(l, x) == Imports(Indexed(l), f).clause;
    PlaceInside(l, x.handlerEnd);
  }

  lemma NotEmpty(code: seq<byte>, c: Code)
    requires Exportable(c) && Canonical(c) && Encode(c) == code && |code| > 0
    ensures |c| > 0
  {
    hide Encode, Canonical;
    PlacedEncodable(c);
  }

  /** What the decoder makes of the written body renders the rewritten list. */
  lemma WrittenIsRendered(b: Body, bytes: seq<byte>, w: Rewriting<ILInstr>, probes: map<int, nat>, s: Probes, methodId: int, isMain: bool)
    requires Achieved(b, bytes, w, probes, s, methodId, isMain) && Proper(b) && Fitting(b, probes, methodId)
    ensures Importable(b) && Importable(ReadBody(bytes)) && Renders(w.after, Denoted(ReadBody(bytes)))
    ensures Rewritten(probes, w) && NumberedAs(w.before, Denoted(b)) && Plain(w.before)
  {
    hide Decode, Indexed, Relaxed, Shaped, Targeted, ClausesInside, Canonical, ProbesFit, ReadBody, Imports, Exports, RefersInto, Denoted,
         ClauseSane, StartsClean, AllCovered, Truthful, EnterEvents, FirstOffset, Off, Rewritten, Plain, Encode, Importable, Proper, ValidBody,
         ExtraDepth, NodeCount, Charge, IndexedClause;
    AchievedBytes(b, bytes, w, probes, s, methodId, isMain);
    EncodeDecode(b.code);
    NotEmpty(b.code, Decode(b.code).code);
    AchievedFits(b, bytes, w, probes, s, methodId, isMain);
    ProperList(b, w.before);
    RewrittenLengths(probes, w);
    forall i | 0 <= i < |w.before.clauses| ensures StartsClean(w.before, w.before.clauses[i]) { ReadStartsClean(b, w.before, i); }
    RelaxedSize(Indexed(w.after));
    WrittenRenders(probes, w, ReadBody(bytes));
  }

  // Meaning

  /** The instructions of the written method that belong to instructions of the method that was read, with the numbers of
      these. */
  ghost function Origins(w: Rewriting<ILInstr>): map<nat, nat> {
    map p: nat | p < |w.after.order| && w.after.order[p] in Labels(w) :: Place(w.before, Labels(w)[w.after.order[p]])
  }

  /** These are the carriers of the original instructions. */
  lemma OriginsAre<R>(m: Machine<ILInstr, R>, w: Rewriting<ILInstr>)
    requires Simulation.Valid(m, w)
    ensures WellFormed(w.before) && forall k: nat :: k < |w.blocks| ==> Carrier(w, k) in Origins(w) && Origins(w)[Carrier(w, k)] == k
    ensures forall p :: p in Origins(w) ==> exists k: nat :: k < |w.blocks| && Carrier(w, k) == p
  {
    hide Simulation.Valid, Labels, Place, IsLabelling, Carrier, Origins;
    ValidIsWellFormed(m, w);
    LabelsLabel(m, w);
    forall k: nat | k < |w.blocks| ensures Carrier(w, k) in Origins(w) && Origins(w)[Carrier(w, k)] == k { OriginOf(m, w, k); }
    forall p | p in Origins(w) ensures exists k: nat :: k < |w.blocks| && Carrier(w, k) == p { var k := CarrierOf(m, w, p); }
  }

  lemma OriginOf<R>(m: Machine<ILInstr, R>, w: Rewriting<ILInstr>, k: nat)
    requires Simulation.Valid(m, w) && k < |w.blocks| && |w.blocks| == |w.before.order| && WellFormed(w.before) && IsLabelling(w, Labels(w))
    ensures Carrier(w, k) in Origins(w) && Origins(w)[Carrier(w, k)] == k
  {
    hide Simulation.Valid, Labels, Place, Distinct;
    BlockNodes(m, w, k);
    PosUnique(w.before.order, k);
    PlaceInside(w.before, w.before.order[k]);
  }

  lemma CarrierOf<R>(m: Machine<ILInstr, R>, w: Rewriting<ILInstr>, p: nat) returns (k: nat)
    requires Simulation.Valid(m, w) && p in Origins(w) && |w.blocks| == |w.before.order| && WellFormed(w.after) && IsLabelling(w, Labels(w))
    ensures k < |w.blocks| && Carrier(w, k) == p
  {
    hide Simulation.Valid, Labels, Place, Distinct;
    var j :| 0 <= j < |w.blocks| && w.blocks[j].carrier == w.after.order[p];
    k := j;
    BlockNodes(m, w, k);
    PosUnique(w.after.order, p);
    PosUnique(w.after.order, Carrier(w, k));
  }

  /** The list that was read, on a machine for its nodes, runs like the method that was read, and the rewritten list like the
      method that was written. */
  lemma BothAlike<R(!new)>(m0: Machine<nat, R>, m2: Machine<nat, R>, b: Body, bytes: seq<byte>, w: Rewriting<ILInstr>, s: Probes,
                           methodId: int, isMain: bool)
    requires Achieved(b, bytes, w, m0.probes, s, methodId, isMain) && Proper(b) && Fitting(b, m0.probes, methodId)
    requires Corresponds(m0, m2, StartsOf(w))
    ensures Importable(b) && Importable(ReadBody(bytes)) && WellFormed(w.before) && WellFormed(w.after)
    ensures Alike(OnNodes(w.before, m0), w.before, m0, Denoted(b))
    ensures Alike(OnNodes(w.before, m0), w.after, m2, Denoted(ReadBody(bytes)))
    ensures Instruments(OnNodes(w.before, m0), w, s, LeaveProbe(s, isMain), methodId)
  {
    hide Achieved, ReadBody, Renders, Rewritten, NumberedAs, Plain, Corresponds, Alike, RefersToStarts, Denoted, Importable, Proper, Instruments;
    WrittenIsRendered(b, bytes, w, m0.probes, s, methodId, isMain);
    RewrittenLengths(m0.probes, w);
    ReadIsRendered(m0.probes, w, Denoted(b));
    NodesAlike(w.before, Denoted(b), m0);
    StartsAreHomes(m0.probes, w);
    MovedAlike(w.before, w.after, Denoted(ReadBody(bytes)), StartsOf(w), m0, m2);
    AchievedInstruments(OnNodes(w.before, m0), b, bytes, w, s, methodId, isMain);
    AchievedBytes(b, bytes, w, m0.probes, s, methodId, isMain);
  }

  lemma ReadIsRendered(probes: map<int, nat>, w: Rewriting<ILInstr>, d: Listing<nat>)
    requires Rewritten(probes, w) && NumberedAs(w.before, d) && Plain(w.before)
    ensures Renders(w.before, d)
    ensures forall p :: 0 <= p < |w.before.order| && IsPrefix(w.before.code[w.before.order[p]].op) ==> w.before.code[w.before.order[p]].arg.Bits?
  {
    hide Place, Indexed, ValidBody, Shaped, Instrumented, Plain;
    NumberedWellFormed(w.before, d);
    forall p | 0 <= p < |w.before.order|
      ensures d.order[p] == p && RendersInstr(w.before, w.before.code[w.before.order[p]], d.code[p])
      ensures IsPrefix(w.before.code[w.before.order[p]].op) ==> w.before.code[w.before.order[p]].arg.Bits?
    {
      SameInstr(w.before, d, p);
      OriginalTarget(w.before, p);
    }
  }

  lemma StartsAreHomes(probes: map<int, nat>, w: Rewriting<ILInstr>)
    requires Rewritten(probes, w) && Plain(w.before)
    ensures RefersToStarts(w.before, w.after, StartsOf(w))
    ensures forall p :: 0 <= p < |w.after.order| && IsPrefix(w.after.code[w.after.order[p]].op) ==> w.after.code[w.after.order[p]].arg.Bits?
  {
    hide Rewritten, Place, Plain, IsBare;
    RewrittenLengths(probes, w);
    forall k | 0 <= k < |w.blocks| ensures w.At(k) < |w.after.order| && w.after.order[w.At(k)] == w.before.order[k] {
      HomePlace(probes, w, k);
    }
    forall p | 0 <= p < |w.after.order|
      ensures var x := w.after.code[w.after.order[p]];
              (x.arg.Target? && !IsBare(x.op) ==> x.arg.node in w.before.order) && (IsPrefix(x.op) ==> x.arg.Bits?)
    {
      TargetIsHome(probes, w, p);
    }
  }

  /** After `k` steps of the written method, which are `n` steps of the method that was read: the same instructions have been
      executed in the same states, both methods are in the same state now, and the probes have been called that belong to
      the executed instructions. */
  ghost predicate SameBytesRun<R(!new)>(m0: Machine<nat, R>, m2: Machine<nat, R>, b: Body, b2: Body, w: Rewriting<ILInstr>, rest: R, n: nat, k: nat)
    requires Importable(b) && Importable(b2) && Simulation.Valid(OnNodes(w.before, m0), w)
  {
    var d0, d2, m := Denoted(b), Denoted(b2), OnNodes(w.before, m0);
    var c0, c2 := Run(m0, d0, Entry(rest), n), Run(m2, d2, Entry(rest), k);
    && Trace(m2, d2, Entry(rest), k, Origins(w)) == Trace(m0, d0, Entry(rest), n, Itself(d0))
    && c2.core == c0.core && (c2.Stopped? <==> c0.Stopped?)
    && c2.log == EnterEvents(m.probes, w.after.code, w.enter) + RunLog(m, w, Entry(rest), n)
  }

  /** From bytes to bytes: on machines that give the instructions the same meaning, the method that is written does what the
      method that was read does, and nothing else that an observer of its instructions could see. */
  lemma BytesPreserveMeaning<R(!new)>(m0: Machine<nat, R>, m2: Machine<nat, R>, b: Body, bytes: seq<byte>, w: Rewriting<ILInstr>,
                                      s: Probes, methodId: int, isMain: bool, rest: R, n: nat)
    requires Achieved(b, bytes, w, m0.probes, s, methodId, isMain) && Proper(b) && Fitting(b, m0.probes, methodId)
    requires Corresponds(m0, m2, StartsOf(w))
    ensures Importable(b) && Importable(ReadBody(bytes)) && Simulation.Valid(OnNodes(w.before, m0), w)
    ensures exists k: nat :: k >= n && SameBytesRun(m0, m2, b, ReadBody(bytes), w, rest, n, k)
    ensures exists i: nat :: i <= n && Trace(m2, Denoted(ReadBody(bytes)), Entry(rest), n, Origins(w)) == Trace(m0, Denoted(b),
             Entry(rest), i, Itself(Denoted(b)))
  {
    hide Achieved, ReadBody, Corresponds, Alike, Denoted, Importable, Proper, Instruments, Fitting, SameRun, SameBytesRun, Simulation.Valid,
         Trace, Run, RunLog, Itself, Origins, Labels, OnNodes, StartsOf, WellFormed, SameLabels;
    BothAlike(m0, m2, b, bytes, w, s, methodId, isMain);
    var m := OnNodes(w.before, m0);
    var d0, d2, b2 := Denoted(b), Denoted(ReadBody(bytes)), ReadBody(bytes);
    InstrumentsIsValid(m, w, s, LeaveProbe(s, isMain), methodId);
    SameRuns(m, w, s, LeaveProbe(s, isMain), methodId, rest, n);
    var k: nat :| k >= n && SameRun(m, w, rest, n, k);
    AlikeRenders(m, w.before, m0, d0);
    LabelsNumbered(w, d0);
    SameInBytes(m0, m2, b, b2, w, rest, n, k);
    var i: nat :| i <= n && Trace(m, w.after, Entry(rest), n, Labels(w)) == Trace(m, w.before, Entry(rest), i, Itself(w.before));
    EntryAlike<R>(rest);
    RunAlike(m, w.after, m2, d2, w.before, Labels(w), Origins(w), Entry(rest), n, 0);
    RunAlike(m, w.before, m0, d0, w.before, Itself(w.before), Itself(d0), Entry(rest), i, 0);
  }

  /** There is such a machine, whatever the instructions mean, as long as the length of branches is no part of it. */
  lemma MeaningCarriesOver<R(!new)>(m0: Machine<nat, R>, b: Body, bytes: seq<byte>, w: Rewriting<ILInstr>, s: Probes, methodId: int, isMain: bool)
    requires Achieved(b, bytes, w, m0.probes, s, methodId, isMain) && LengthBlind(m0)
    ensures Corresponds(m0, Counterpart(m0, StartsOf(w)), StartsOf(w))
  {
    hide Corresponds, Counterpart, LengthBlind, AllCovered, Truthful, Exported, NumberedAs, ClausesInside, Denoted, Importable, Rewritten;
    StartsDistinct(m0.probes, w);
    CounterpartCorresponds(m0, StartsOf(w));
  }

  lemma StartsDistinct(probes: map<int, nat>, w: Rewriting<ILInstr>)
    requires Rewritten(probes, w)
    ensures Distinct(StartsOf(w))
  {
    hide Rewritten, Start;
    forall j, k | 0 <= j < k < |w.blocks| ensures w.At(j) != w.At(k) { StartMonotone(w.blocks, j, k); }
  }

  lemma EntryAlike<R>(rest: R)
    ensures UnnamedConfig(Entry<ILInstr, R>(rest)) == Entry<nat, R>(rest) && BitsOnly(Entry<ILInstr, R>(rest).core)
  {
  }

  lemma LabelsNumbered(w: Rewriting<ILInstr>, d0: Listing<nat>)
    requires Renders(w.before, d0)
    ensures SameLabels(w.after, w.before, Labels(w), Origins(w)) && SameLabels(w.before, w.before, Itself(w.before), Itself(d0))
  {
    hide Place, Labels, RendersInstr;
    forall p: nat | p < |w.before.order| ensures Place(w.before, w.before.order[p]) == p && p in d0.order && p in Itself(d0) {
      PosUnique(w.before.order, p);
      PlaceInside(w.before, w.before.order[p]);
      assert d0.order[p] == p;
    }
  }

  lemma AlikeRenders<R(!new)>(m: Machine<ILInstr, R>, l: Listing<ILInstr>, md: Machine<nat, R>, d: Listing<nat>)
    requires Alike(m, l, md, d)
    ensures Renders(l, d)
  {
  }

  lemma SameInBytes<R(!new)>(m0: Machine<nat, R>, m2: Machine<nat, R>, b: Body, b2: Body, w: Rewriting<ILInstr>, rest: R, n: nat, k: nat)
    requires Importable(b) && Importable(b2) && WellFormed(w.before) && WellFormed(w.after)
    requires Alike(OnNodes(w.before, m0), w.before, m0, Denoted(b)) && Alike(OnNodes(w.before, m0), w.after, m2, Denoted(b2))
    requires SameLabels(w.after, w.before, Labels(w), Origins(w)) && SameLabels(w.before, w.before, Itself(w.before), Itself(Denoted(b)))
    requires Simulation.Valid(OnNodes(w.before, m0), w) && SameRun(OnNodes(w.before, m0), w, rest, n, k)
    ensures SameBytesRun(m0, m2, b, b2, w, rest, n, k)
  {
    hide Alike, Denoted, Importable, Simulation.Valid, Trace, Run, RunLog, Itself, Origins, Labels, OnNodes, SameLabels, WellFormed;
    var m := OnNodes(w.before, m0);
    EntryAlike<R>(rest);
    RunAlike(m, w.after, m2, Denoted(b2), w.before, Labels(w), Origins(w), Entry(rest), k, 0);
    RunAlike(m, w.before, m0, Denoted(b), w.before, Itself(w.before), Itself(Denoted(b)), Entry(rest), n, 0);
  }

  // Depth

  lemma SameBounds<R(!new)>(m: Machine<ILInstr, R>, w: Rewriting<ILInstr>, m0: Machine<nat, R>, d0: Listing<nat>, rest: R, depth: nat)
    requires WellFormed(w.before) && WellFormed(d0) && Alike(m, w.before, m0, d0)
    requires SameLabels(w.before, w.before, Itself(w.before), Itself(d0))
    requires forall k: nat :: Within(m0, d0, Entry(rest), k, depth)
    ensures forall k: nat :: Within(m, w.before, Entry(rest), k, depth)
  {
    hide Alike, Within, Itself, SameLabels, WellFormed;
    EntryAlike<R>(rest);
    forall k: nat ensures Within(m, w.before, Entry(rest), k, depth) {
      RunAlike(m, w.before, m0, d0, w.before, Itself(w.before), Itself(d0), Entry(rest), k, depth);
    }
  }

  lemma KeptDepth(depth: nat)
    ensures depth % 0x1_0000 == depth <==> depth < 0x1_0000
  {
  }

  /** The written header holds the last sixteen bits of the computed depth, so the depth itself exactly if that fits.  Then, if the depth of the header
      that was read is enough for the method that was read, it is enough for the method that is written. */
  lemma HeaderDepthSuffices<R(!new)>(m0: Machine<nat, R>, m2: Machine<nat, R>, b: Body, bytes: seq<byte>, w: Rewriting<ILInstr>,
                                     s: Probes, methodId: int, isMain: bool, rest: R, n: nat)
    requires Achieved(b, bytes, w, m0.probes, s, methodId, isMain) && Proper(b) && Fitting(b, m0.probes, methodId)
    requires Corresponds(m0, m2, StartsOf(w))
    requires Importable(b) && forall k: nat :: Within(m0, Denoted(b), Entry(rest), k, b.maxStack)
    ensures Importable(ReadBody(bytes)) && ReadBody(bytes).maxStack == DepthOf(b) % 0x1_0000
    ensures ReadBody(bytes).maxStack == DepthOf(b) <==> DepthOf(b) < 0x1_0000
    ensures DepthOf(b) < 0x1_0000 ==> Within(m2, Denoted(ReadBody(bytes)), Entry(rest), n, ReadBody(bytes).maxStack)
  {
    hide Achieved, ReadBody, Corresponds, Alike, Denoted, Importable, Proper, Instruments, Within, Origins, Labels, OnNodes, Itself,
         WellFormed, SameLabels, DepthOf, StartsOf, Fitting, Exported, Relaxed, Decode;
    BothAlike(m0, m2, b, bytes, w, s, methodId, isMain);
    AchievedBytes(b, bytes, w, m0.probes, s, methodId, isMain);
    KeptDepth(DepthOf(b));
    var m := OnNodes(w.before, m0);
    EntryAlike<R>(rest);
    AlikeRenders(m, w.before, m0, Denoted(b));
    LabelsNumbered(w, Denoted(b));
    SameBounds(m, w, m0, Denoted(b), rest, b.maxStack);
    MaxStackSuffices(m, w, s, LeaveProbe(s, isMain), methodId, rest, b.maxStack, DepthOf(b), n);
    RunAlike(m, w.after, m2, Denoted(ReadBody(bytes)), w.before, Labels(w), Origins(w), Entry(rest), n, DepthOf(b));
  }

  // Exception regions

  /** Of the exception clause `f` an instruction at offset `o` lies in the same regions as one at `o'` does of `f'`. */
  predicate SameRegionsOf(f: FatClause, o: nat, f': FatClause, o': nat) {
    && f'.flags == f.flags && (f.flags % 2 == 0 ==> f'.extra == f.extra)
    && (Covers(f.tryOffset, f.tryLength, o) <==> Covers(f'.tryOffset, f'.tryLength, o'))
    && (Covers(f.handlerOffset, f.handlerLength, o) <==> Covers(f'.handlerOffset, f'.handlerLength, o'))
    && (f.flags % 2 == 1 ==> (f.extra <= o < f.handlerOffset <==> f'.extra <= o' < f'.handlerOffset))
  }

  lemma ImportedRegions(l: Listing<ILInstr>, b: Body, i: nat, k: nat)
    requires Importable(b) && Proper(b) && NumberedAs(l, Denoted(b)) && CodeSize(Decode(b.code).code) < TWO_TO_THE_31
    requires Shaped(Decode(b.code).code) && i < |b.clauses| && FitsWord(b.clauses[i]) && k < |l.order|
    ensures i < |l.clauses| && ClauseSane(l, l.clauses[i]) && l.clauses[i].flags == b.clauses[i].flags
    ensures var f, x := b.clauses[i], l.clauses[i]; var o := Off(Decode(b.code).code, k);
            && (InTry(l, x, k) <==> Covers(f.tryOffset, f.tryLength, o))
            && (InHandler(l, x, k) <==> Covers(f.handlerOffset, f.handlerLength, o))
            && (x.kind.Filtered? <==> IsFilter(f.flags)) && (x.kind.Typed? ==> x.kind.classToken == f.extra)
            && (x.kind.Filtered? ==> (InFilter(l, x, k) <==> f.extra <= o < f.handlerOffset))
  {
    hide Decode, Off, Shaped, Place, ValidAt, Indexed;
    ProperList(b, l);
    NumberedCode(l, b);
    var c, f, x := Decode(b.code).code, b.clauses[i], l.clauses[i];
    var y := IndexedClause(l, x);
    assert f.tryLength in ClauseWords(f) && f.handlerLength in ClauseWords(f);
    ExportsImports(c, f);
    assert ValidClause(l, x);
    PlaceInside(l, x.handlerEnd);
    ExportsDenote(c, y, k);
  }

  lemma ExportedRegions(w: Rewriting<ILInstr>, probes: map<int, nat>, d: Code, i: nat, k: nat, p: nat)
    requires Rewritten(probes, w) && WellFormed(w.after) && ClausesInside(w.after) && Targeted(Indexed(w.after))
    requires d == Relaxed(Indexed(w.after)) && 10 * |w.after.order| < TWO_TO_THE_31
    requires i < |w.before.clauses| && ClauseSane(w.before, w.before.clauses[i]) && k < |w.blocks| && w.At(k) <= p < w.At(k + 1)
    ensures i < |w.after.clauses| && p < |d| && RefersInto(d, IndexedClause(w.after, w.after.clauses[i]))
    ensures var x, g := w.before.clauses[i], Exports(d, IndexedClause(w.after, w.after.clauses[i]));
            && g.flags == x.flags && (x.kind.Typed? ==> g.extra == x.kind.classToken)
            && (InTry(w.before, x, k) <==> Covers(g.tryOffset, g.tryLength, Off(d, p)))
            && (InHandler(w.before, x, k) <==> Covers(g.handlerOffset, g.handlerLength, Off(d, p)))
            && (x.kind.Filtered? ==> (InFilter(w.before, x, k) <==> g.extra <= Off(d, p) < g.handlerOffset))
  {
    hide Off, Shaped, Place, Indexed, Relaxed, ValidBody, GoodBlock, Flatten, Start, IsEnterProbe, ClauseSane, Targeted, ClausesInside,
         InTry, InHandler, InFilter, Covers;
    RelaxedSize(Indexed(w.after));
    RegionsExported(probes, w, d, i, k, p);
  }

  /** Exception regions survive from bytes to bytes: an instruction of the written method lies in exactly the try blocks,
      filters and handlers in which the original instruction that it belongs to lies in the method that was read. */
  lemma BytesPreserveRegions(b: Body, bytes: seq<byte>, w: Rewriting<ILInstr>, probes: map<int, nat>, s: Probes, methodId: int,
                             isMain: bool, i: nat, k: nat, p: nat)
    requires Achieved(b, bytes, w, probes, s, methodId, isMain) && Proper(b) && |b.code| < TWO_TO_THE_31
    requires i < |b.clauses| && FitsWord(b.clauses[i]) && k < |w.blocks| && w.At(k) <= p < w.At(k + 1)
    ensures ReadBody(bytes).Body? && |ReadBody(bytes).clauses| == |b.clauses|
    ensures Targeted(Indexed(w.after)) && p < |w.after.order| && k < |Decode(b.code).code|
    ensures SameRegionsOf(b.clauses[i], Off(Decode(b.code).code, k),
                          ReadBody(bytes).clauses[i], Off(Relaxed(Indexed(w.after)), p))
  {
    hide Decode, Off, Shaped, Place, Indexed, Relaxed, ValidBody, GoodBlock, Flatten, Start, IsEnterProbe, ClauseSane, Targeted,
         ClausesInside, InTry, InHandler, InFilter, Covers, Proper, Denoted, Importable, AllCovered, Truthful, EnterEvents, FirstOffset, ReadBody;
    AchievedBytes(b, bytes, w, probes, s, methodId, isMain);
    var c, d := Decode(b.code).code, Relaxed(Indexed(w.after));
    EncodeDecode(b.code);
    NumberedCode(w.before, b);
    ImportedRegions(w.before, b, i, k);
    ExportedRegions(w, probes, d, i, k, p);
  }
}
