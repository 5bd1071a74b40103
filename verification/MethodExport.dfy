/** Exporting a rewritten method: code, header and exception clauses. */
module MethodExport {
  import opened Bytes
  import opened Opcodes
  import opened Listings
  import opened Machine
  import opened Blocks
  import opened Simulation
  import opened Growth
  import opened InstructionList
  import opened Codec
  import opened Relaxation
  import opened Importing
  import opened Exporting
  import opened ExceptionClauses
  import opened BodyFormat
  import opened Reassembly
  import opened CoverageProbes
  import opened Planning
  import opened Instrumentation
  import opened Accounting

  /** A clause of the list depends on the order of its nodes only. */
  lemma SameIndices<N>(l: Listing<N>, l': Listing<N>, x: Clause<N>)
    requires l'.order == l.order
    ensures IndexedClause(l', x) == IndexedClause(l, x)
  {
  }

  lemma ExportFits(d: Code, x: Clause<nat>)
    requires RefersInto(d, x) && CodeSize(d) < TWO_TO_THE_31 && x.flags < TWO_TO_THE_32
    requires x.kind.Typed? ==> x.kind.classToken < TWO_TO_THE_32
    ensures FitsWord(Exports(d, x))
  {
    hide Off;
    OffGrows(d, x.tryBegin, |d|);
    OffGrows(d, x.handlerBegin, |d|);
    if x.kind.Filtered? { OffGrows(d, x.kind.filter, |d|); }
  }

  lemma ClauseFits<N>(probes: map<int, nat>, w: Rewriting<N>, d: Code, i: nat)
    requires Rewritten(probes, w) && ClausesInside(w.after) && |d| == |w.after.order| && CodeSize(d) < TWO_TO_THE_31
    requires i < |w.before.clauses| && ClauseSane(w.before, w.before.clauses[i])
    ensures i < |w.after.clauses| && ClauseBelongs(w.after, w.after.clauses[i])
    ensures var y := IndexedClause(w.after, w.after.clauses[i]); RefersInto(d, y) && FitsWord(Exports(d, y))
  {
    hide GoodBlock, Flatten, IsEnterProbe, FitsWord, Exports, InTry, InHandler, Place, ClauseInside, Shaped, ClauseBelongs;
    RewrittenOrdered(probes, w, d, i);
    ExportFits(d, IndexedClause(w.after, w.after.clauses[i]));
  }

  /** The body that the runtime's decoder finds in the exported bytes. */
  ghost predicate Exported<N>(bytes: seq<byte>, w: Rewriting<N>, d: Code, flags: nat, maxStack: nat, localVarSigTok: nat) {
    && Shaped(d) && Targeted(d)
    && var body := ReadBody(bytes);
       && body.Body? && body.flags == flags && body.maxStack == maxStack % 0x1_0000 && body.localVarSigTok == localVarSigTok
       && body.code == Encode(d) && Decode(body.code) == Decoded(Normal(d))
       && |body.clauses| == |w.after.clauses|
       && forall i :: 0 <= i < |body.clauses| ==>
            var y := IndexedClause(w.after, w.after.clauses[i]); RefersInto(d, y) && body.clauses[i] == Exports(d, y)
  }

  /** Writes the rewritten method.  Its code is that of the list with short branches relaxed, its clauses those of the
      list in the relaxed layout. */
  method Export(pilr: ILRewriter, flags: nat, localVarSigTok: nat, ghost probes: map<int, nat>, ghost w: Rewriting<ILInstr>)
    returns (pBody: array<byte>)
    requires pilr.Valid() && pilr.View() == w.after && Rewritten(probes, w) && ClausesInside(w.after)
    requires forall i :: 0 <= i < |w.before.clauses| ==> ClauseSane(w.before, w.before.clauses[i])
    requires 10 * pilr.nInstrs < TWO_TO_THE_31 && 4 + CLAUSE_SIZE * |pilr.clauses| < 0x100_0000
    requires (flags == 0 || flags == INIT_LOCALS) && localVarSigTok < TWO_TO_THE_32
    modifies (set n | n in pilr.nodes)`opcode, (set n | n in pilr.nodes)`offset, pilr.head`offset
    ensures pilr.Valid() && fresh(pBody) && WellFormed(w.after) && Targeted(Indexed(w.after))
    ensures Exported(pBody[..], w, Relaxed(Indexed(w.after)), flags, pilr.maxStack, localVarSigTok)
  {
    hide ILRewriter.Linked, ILRewriter.View, Laid, Rewritten, ClausesInside, ClauseSane, Encode, Decode, Relaxed, Shaped, Targeted,
         Closed, Exports, RefersInto, ClauseBelongs, IndexedClause, ReadBody, FitsWord, Normal, Indexed;
    RewrittenShape(probes, w);
    RewrittenClosed(probes, w);
    ghost var c := Indexed(w.after);
    ghost var d := Relaxed(c);
    OrderIsNodes(pilr);
    var buffer, codeSize := ExportCode(pilr);
    RelaxedSize(c);
    SameClausesOf(probes, w);
    OrderIsNodes(pilr);
    forall i | 0 <= i < |pilr.clauses|
      ensures ClauseBelongs(pilr.View(), pilr.clauses[i])
      ensures var y := IndexedClause(pilr.View(), pilr.clauses[i]);
              y == IndexedClause(w.after, w.after.clauses[i]) && RefersInto(d, y) && FitsWord(Exports(d, y))
    {
      ClauseFits(probes, w, d, i);
      SameIndices(w.after, pilr.View(), pilr.clauses[i]);
      SameBelongs(w.after, pilr.View(), pilr.clauses[i]);
    }
    var fat := ExportEH(pilr, d);
    pBody := WriteBody(flags, pilr.maxStack, localVarSigTok, buffer, codeSize, fat);
    RelaxedExportable(c);
  }

  lemma SameBelongs<N>(l: Listing<N>, l': Listing<N>, x: Clause<N>)
    requires l'.order == l.order && l'.end == l.end && ClauseBelongs(l, x)
    ensures ClauseBelongs(l', x)
  {
  }

  lemma SameClausesOf<N>(probes: map<int, nat>, w: Rewriting<N>)
    requires Rewritten(probes, w)
    ensures |w.before.clauses| == |w.after.clauses|
  {
  }

  lemma RelaxedSize(c: Code)
    requires Targeted(c) && 10 * |c| < TWO_TO_THE_31
    ensures |Relaxed(c)| == |c| && CodeSize(Relaxed(c)) < TWO_TO_THE_31
  {
    SizeBound(Relaxed(c), |c|);
  }

  /** Rewriting a list whose depth was `imported` leaves that and the cost of the probes.  The exported header holds this
      depth exactly if it fits sixteen bits, and then it bounds the evaluation stack throughout every run of the rewritten
      method. */
  lemma ExportedDepth<R>(m: Machine<ILInstr, R>, w: Rewriting<ILInstr>, s: Probes, leave: ProbeCall, methodId: int, rest: R,
                         imported: nat, bytes: seq<byte>, d: Code, flags: nat, localVarSigTok: nat, k: nat)
    requires Instruments(m, w, s, leave, methodId) && WellFormed(w.before)
    requires forall n: nat :: Within(m, w.before, Entry(rest), n, imported)
    requires Exported(bytes, w, d, flags, imported + ExtraDepth(w.before), localVarSigTok)
    ensures ReadBody(bytes).Body? && WellFormed(w.after)
    ensures ReadBody(bytes).maxStack == imported + ExtraDepth(w.before) <==> imported + ExtraDepth(w.before) < 0x1_0000
    ensures imported + ExtraDepth(w.before) < 0x1_0000 ==> Within(m, w.after, Entry(rest), k, ReadBody(bytes).maxStack)
  {
    hide ReadBody, Within, Instruments;
    var maxStack := imported + ExtraDepth(w.before);
    MaxStackSuffices(m, w, s, leave, methodId, rest, imported, maxStack, k);
    InstrumentsIsValid(m, w, s, leave, methodId);
    ValidIsWellFormed(m, w);
  }
}
