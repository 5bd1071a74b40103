/** A method from its bytes to the bytes of its instrumented form. */
module WholeMethod {
  import opened Bytes
  import opened Opcodes
  import opened Listings
  import opened Machine
  import opened Blocks
  import opened Simulation
  import opened Growth
  import opened MethodBody
  import opened InstructionList
  import opened Codec
  import opened Relaxation
  import opened Importing
  import opened Exporting
  import opened ExceptionClauses
  import opened BodyFormat
  import opened Reassembly
  import opened CoverageProbes
  import opened Planning
  import opened RewriteIL
  import opened Instrumentation
  import opened MethodExport
  import opened Accounting
  import opened Numbering

  // What the bytes denote

  /** What is relied on: if the body can be read at all, it is that of a valid method. */
  ghost predicate Proper(b: Body) {
    Importable(b) ==>
      ValidBody(Denoted(b)) && forall k :: 0 <= k < |b.clauses| ==> ClauseSane(Denoted(b), Denoted(b).clauses[k])
  }

  // The whole way

  /** Reads a method. */
  method Import(b: Body) returns (status: Status, pilr: ILRewriter)
    requires b.Body?
    ensures fresh(pilr) && fresh(pilr.head) && fresh(set n | n in pilr.nodes)
    ensures pilr.Valid() && pilr.head.opcode == -1
    ensures status == Status.Imported <==> Importable(b)
    ensures status == InvalidCode <==> Decode(b.code).InvalidProgram?
    ensures Importable(b) ==> NumberedAs(pilr.View(), Denoted(b)) && pilr.maxStack == b.maxStack + Charge(Decode(b.code).code)
    ensures Importable(b) ==> WellFormed(pilr.View()) && Shaped(Indexed(pilr.View()))
  {
    hide ILRewriter.Linked, OffsetTable, Imports, ClauseBelongs, IndexedClause, Plain, Decode, Charge, Indexed;
    pilr := new ILRewriter(b.maxStack);
    var offsetToInstr;
    status, offsetToInstr := ImportIL(pilr, b.code);
    if status != Status.Imported {
      return;
    }
    OrderIsNodes(pilr);
    ghost var c := Indexed(pilr.View());
    TableShaped(offsetToInstr, pilr, c);
    ghost var l := pilr.View();
    var ok := ImportEH(pilr, offsetToInstr, b.clauses, c);
    OrderIsNodes(pilr);
    if !ok {
      return MissingTarget, pilr;
    }
    ClausesOnly(l, pilr.View());
    assert IndexedClauses(pilr.View()) == Denoted(b).clauses;
  }

  lemma TableShaped(table: array<ILInstr?>, pilr: ILRewriter, c: Code)
    requires OffsetTable(table, pilr, c)
    ensures Shaped(c)
  {
  }

  lemma ClausesOnly<N>(l: Listing<N>, l': Listing<N>)
    requires WellFormed(l) && l'.order == l.order && l'.end == l.end && l'.code == l.code
    ensures WellFormed(l') && Indexed(l') == Indexed(l) && (Plain(l) ==> Plain(l'))
  {
    forall i | 0 <= i < |l.order| ensures Indexed(l')[i] == Indexed(l)[i] { }
  }

  datatype Outcome = NotImported(status: Status) | TooLarge | Finished

  function LeaveProbe(s: Probes, isMain: bool): ProbeCall {
    if isMain then s.leaveMain else s.leave
  }

  /** The maximal stack depth that the rewriter computes: that of the header, what the instructions push, and what the
      probes cost. */
  ghost function DepthOf(b: Body): nat
    requires Importable(b)
  {
    b.maxStack + Charge(Decode(b.code).code) + ExtraDepth(Denoted(b))
  }

  /** What the rewriter has made of the method `b`. */
  ghost predicate Achieved(b: Body, bytes: seq<byte>, w: Rewriting<ILInstr>, probes: map<int, nat>, s: Probes, methodId: int,
                           isMain: bool) {
    && Importable(b) && NumberedAs(w.before, Denoted(b))
    && Rewritten(probes, w) && WellFormed(w.after) && ClausesInside(w.after) && Targeted(Indexed(w.after))
    && AllCovered(probes, w.before, w.after, w.blocks, s, LeaveProbe(s, isMain), methodId)
    && Truthful(probes, w.before, w.after, w.blocks, s, LeaveProbe(s, isMain), methodId)
    && (|w.before.order| > 0 ==>
          EnterEvents(probes, w.after.code, w.enter) ==
          [Event((if isMain then s.enterMain else s.enter).addr, [FirstOffset(w.before), methodId, 0])])
    && |w.after.order| == NodeCount(Denoted(b)) && 10 * |w.after.order| < TWO_TO_THE_31
    && Exported(bytes, w, Relaxed(Indexed(w.after)), b.flags, DepthOf(b), b.localVarSigTok)
  }

  /** Reads a method, inserts the probes and writes it, unless the rewritten method outgrows 32-bit sizes. */
  method RewriteMethod(b: Body, s: Probes, methodId: int, isMain: bool, ghost probes: map<int, nat>)
    returns (outcome: Outcome, pBody: array<byte>, ghost w: Rewriting<ILInstr>)
    requires b.Body? && Proper(b) && Known(probes, s)
    requires (b.flags == 0 || b.flags == INIT_LOCALS) && b.localVarSigTok < TWO_TO_THE_32 && 4 + CLAUSE_SIZE * |b.clauses| < 0x100_0000
    ensures outcome.NotImported? <==> !Importable(b)
    ensures outcome == NotImported(InvalidCode) <==> Decode(b.code).InvalidProgram?
    ensures outcome == TooLarge <==> Importable(b) && 10 * NodeCount(Denoted(b)) >= TWO_TO_THE_31
    ensures outcome == Finished ==> Achieved(b, pBody[..], w, probes, s, methodId, isMain)
  {
    hide ILRewriter.Linked, ILRewriter.View, Decode, ValidBody, ClauseSane, Instrumented, AllCovered, Truthful, ClausesInside, EnterEvents,
         FirstOffset, NumberedAs, Exported, Indexed, Shaped, Denoted, Importable, Relaxed, Targeted, ExtraDepth, NodeCount, Charge;
    outcome, pBody := TooLarge, new byte[0];
    var status, pilr := Import(b);
    ghost var l := pilr.View();
    w := Rewriting(l, l, [], []);
    if status != Status.Imported {
      return NotImported(status), pBody, w;
    }
    ProperList(b, l);
    SameCosts(l, Denoted(b));
    OrderIsNodes(pilr);
    ghost var enter, bs := Rewrite(pilr, s, methodId, isMain, probes);
    w := Rewriting(l, pilr.View(), enter, bs);
    OrderIsNodes(pilr);
    if 10 * pilr.nInstrs >= TWO_TO_THE_31 {
      return;
    }
    SameClausesOf(probes, w);
    pBody := Export(pilr, b.flags, b.localVarSigTok, probes, w);
    outcome := Finished;
  }

  lemma ProperList(b: Body, l: Listing<ILInstr>)
    requires Importable(b) && Proper(b) && NumberedAs(l, Denoted(b))
    ensures ValidBody(l) && |l.clauses| == |b.clauses| && forall i :: 0 <= i < |l.clauses| ==> ClauseSane(l, l.clauses[i])
  {
    hide ValidBody, ClauseSane, Plain, Indexed, IndexedClause, ClauseBelongs, Imports, Decode;
    var d := Denoted(b);
    ValidAsNumbered(l, d);
    assert |d.clauses| == |l.clauses|;
    forall i | 0 <= i < |l.clauses| ensures ClauseSane(l, l.clauses[i]) { ValidNumberedClause(l, d, i); }
  }

  /** What is known about runs applies to the method whose bytes were read. */
  lemma AchievedInstruments<R>(m: Machine<ILInstr, R>, b: Body, bytes: seq<byte>, w: Rewriting<ILInstr>, s: Probes, methodId: int,
                               isMain: bool)
    requires Achieved(b, bytes, w, m.probes, s, methodId, isMain) && forall n :: n in m.entries ==> n in w.before.order
    ensures Instruments(m, w, s, LeaveProbe(s, isMain), methodId)
  {
    hide ValidBody, Instrumented, AllCovered, Truthful, NumberedAs, Exported, ClausesInside, Denoted, Importable, EnterEvents, FirstOffset;
  }

  lemma AchievedBytes(b: Body, bytes: seq<byte>, w: Rewriting<ILInstr>, probes: map<int, nat>, s: Probes, methodId: int,
                      isMain: bool)
    requires Achieved(b, bytes, w, probes, s, methodId, isMain)
    ensures b.Body? && Decode(b.code).Decoded?
    ensures WellFormed(w.before) && WellFormed(w.after) && Indexed(w.before) == Decode(b.code).code && Targeted(Indexed(w.after))
    ensures DepthOf(b) >= b.maxStack + 5 && Exported(bytes, w, Relaxed(Indexed(w.after)), b.flags, DepthOf(b), b.localVarSigTok)
    ensures ReadBody(bytes).Body? && Decode(ReadBody(bytes).code) == Decoded(Normal(Relaxed(Indexed(w.after))))
    ensures ReadBody(bytes).maxStack == DepthOf(b) % 0x1_0000
  {
    hide ValidBody, Instrumented, AllCovered, Truthful, ClausesInside, Denoted, Imports, EnterEvents, FirstOffset, Decode, ReadBody, Relaxed,
         NumberedAs, Encode, Exports, RefersInto, Targeted, LeaveProbe;
    NumberedCode(w.before, b);
  }

  lemma NumberedCode<N>(l: Listing<N>, b: Body)
    requires Importable(b) && NumberedAs(l, Denoted(b))
    ensures WellFormed(l) && Indexed(l) == Decode(b.code).code && |l.clauses| == |b.clauses|
    ensures forall i :: 0 <= i < |b.clauses| ==> IndexedClause(l, l.clauses[i]) == Imports(Decode(b.code).code, b.clauses[i]).clause
  {
    hide Decode, Imports, IndexedClause, Indexed, Plain, ClauseBelongs;
    var d := Denoted(b);
    var c := Decode(b.code).code;
    assert d == Numbered(Indexed(l), IndexedClauses(l));
    assert |Indexed(l)| == |c|;
    forall p | 0 <= p < |c| ensures Indexed(l)[p] == c[p] { assert d.code[p] == c[p]; }
    assert Indexed(l) == c;
    forall i | 0 <= i < |b.clauses| ensures IndexedClause(l, l.clauses[i]) == Imports(c, b.clauses[i]).clause {
      assert d.clauses[i] == IndexedClauses(l)[i];
    }
  }
}
