/** Which instructions the written method has, by the numbers of opcodes, and that they do the same. */
module WrittenCode {
  import opened Bytes
  import opened Opcodes
  import opened Listings
  import opened Machine
  import opened Blocks
  import opened Simulation
  import opened Growth
  import opened MethodBody
  import opened InstructionList
  import opened Codec
  import opened Relaxation
  import opened Importing
  import opened ExceptionClauses
  import opened BodyFormat
  import opened Reassembly
  import opened CoverageProbes
  import opened Planning
  import opened RewriteIL
  import opened MethodExport
  import opened Accounting
  import opened Numbering
  import opened NumberedRuns
  import opened Correspondence
  import opened WrittenBody
  import opened WholeMethod
  import opened BytesToBytes
  import opened CodeLayout
  import opened Branching
  import opened Reporting

  // Opcodes

  /** `op'` is the long form of the short branch `op`. */
  predicate IsLongForm(op: int, op': int) {
    (0x2B <= op <= 0x37 && op' == op + 13) || (op == 0xDE && op' == 0xDD)
  }

  /** Relaxation keeps every operand, and every opcode but those of short branches that become long; and the branches that
      are still short reach their targets. */
  lemma RelaxedOpcodes(c: Code, i: nat)
    requires Targeted(c) && i < |c|
    ensures var d := Relaxed(c); |d| == |c| && d[i].arg == c[i].arg && (d[i].op == c[i].op || IsLongForm(c[i].op, d[i].op))
    ensures var d := Relaxed(c);
            (0x2B <= d[i].op <= 0x37 || d[i].op == 0xDE) && d[i].arg.Target? ==>
              d[i].arg.node <= |d| && -128 <= Off(d, d[i].arg.node) - Off(d, i + 1) <= 127
  {
    hide Off;
    var d := Relaxed(c);
    assert WiderAt(c, d, i);
    assert !TooFar(d, i);
    Powers();
  }

  /** The code that is written has the instruction at `k` of the code that is read at the place of its block's carrier: with
      the same opcode, or the long form of it; and nothing stands between a prefix and the instruction it belongs to. */
  lemma WrittenOpcodes(b: Body, bytes: seq<byte>, w: Rewriting<ILInstr>, probes: map<int, nat>, s: Probes, methodId: int, isMain: bool, k: nat)
    requires Achieved(b, bytes, w, probes, s, methodId, isMain) && Proper(b) && Fitting(b, probes, methodId) && k < |Decode(b.code).code|
    ensures Importable(ReadBody(bytes)) && |w.blocks| == |Decode(b.code).code| && |ReadBody(bytes).code| < TWO_TO_THE_31
    ensures var c, d, p := Decode(b.code).code, Decode(ReadBody(bytes).code).code, Carrier(w, k);
            && p < |d| && (d[p].op == c[k].op || IsLongForm(c[k].op, d[p].op))
            && (PrefixNumber(c[k].op) && k + 1 < |c| ==> Carrier(w, k + 1) == p + 1)
  {
    hide Decode, Indexed, Relaxed, Shaped, Targeted, ClausesInside, Proper, Fitting, ReadBody, AllCovered, Truthful, EnterEvents, FirstOffset, Off,
         Encode, ValidBody, ExtraDepth, NodeCount, Imports, Exports, NumberedAs, Instrumented, Exported, IsLongForm, Carrier, DepthOf;
    AchievedBytes(b, bytes, w, probes, s, methodId, isMain);
    WrittenIsRendered(b, bytes, w, probes, s, methodId, isMain);
    NumberedCode(w.before, b);
    RewrittenLengths(probes, w);
    CarrierOpcode(probes, w, k);
    RelaxedOpcodes(Indexed(w.after), Carrier(w, k));
    WrittenSize(bytes, w, DepthOf(b), b);
    NumberedOpcode(w.before, k);
    NumberedOpcode(w.after, Carrier(w, k));
    if PrefixNumber(Decode(b.code).code[k].op) && k + 1 < |w.blocks| { PrefixKept(probes, w, k); }
  }

  lemma WrittenSize(bytes: seq<byte>, w: Rewriting<ILInstr>, depth: nat, b: Body)
    requires WellFormed(w.after) && Targeted(Indexed(w.after)) && 10 * |w.after.order| < TWO_TO_THE_31
    requires b.Body? && Exported(bytes, w, Relaxed(Indexed(w.after)), b.flags, depth, b.localVarSigTok)
    ensures ReadBody(bytes).Body? && |ReadBody(bytes).code| < TWO_TO_THE_31
  {
    hide Decode, Indexed, ReadBody, Relaxed, Exports, RefersInto;
    RelaxedSize(Indexed(w.after));
    EncodedSize(Relaxed(Indexed(w.after)));
  }

  lemma EncodedSize(c: Code)
    requires Shaped(c) && Targeted(c)
    ensures |Encode(c)| == CodeSize(c)
  {
    hide Holds;
    PlacedShape(c);
    EncodingHolds(Placed(c), 0, []);
    assert [] + EncodeFrom(Placed(c), 0) == EncodeFrom(Placed(c), 0);
    HoldsSize(Encode(c), Placed(c));
  }

  lemma NumberedOpcode<N>(l: Listing<N>, p: nat)
    requires WellFormed(l) && p < |l.order|
    ensures Indexed(l)[p].op == l.code[l.order[p]].op
  {
  }

  lemma CarrierOpcode<N>(probes: map<int, nat>, w: Rewriting<N>, k: nat)
    requires Rewritten(probes, w) && k < |w.blocks|
    ensures WellFormed(w.before) && WellFormed(w.after) && |w.blocks| == |w.before.order|
    ensures var p := Carrier(w, k); p < |w.after.order| && w.after.code[w.after.order[p]].op == w.before.code[w.before.order[k]].op
  {
    hide ValidBody, Shaped, Indexed, Flatten, Start, RegionsAt, Neutral, IsEnterProbe;
    RewrittenValid(probes, w);
    BlockNodes(SomeMachine(probes), w, k);
    assert GoodBlock(probes, w.before, w.after, |w.enter|, w.blocks, k);
  }

  lemma PrefixKept<N>(probes: map<int, nat>, w: Rewriting<N>, k: nat)
    requires Rewritten(probes, w) && k + 1 < |w.blocks| == |w.before.order| && WellFormed(w.before) && PrefixNumber(w.before.code[w.before.order[k]].op)
    ensures Carrier(w, k + 1) == Carrier(w, k) + 1
  {
    hide ValidBody, Shaped, Indexed, Flatten, Start, RegionsAt, Neutral, IsEnterProbe;
    BlockAt(w.blocks, k);
    assert GoodBlock(probes, w.before, w.after, |w.enter|, w.blocks, k);
    assert GoodBlock(probes, w.before, w.after, |w.enter|, w.blocks, k + 1);
  }

  /** On one and the same runtime, which takes branches as their opcodes say, the method that is written does what the method
      that was read does. */
  lemma RuntimeMeaningKept<R(!new)>(probes: map<int, nat>, e0: set<nat>, rt0: Runtime<R>, e2: set<nat>, rt2: Runtime<R>,
                                    b: Body, bytes: seq<byte>, w: Rewriting<ILInstr>, s: Probes, methodId: int, isMain: bool, rest: R, n: nat)
    requires Achieved(b, bytes, w, probes, s, methodId, isMain) && Proper(b) && Fitting(b, probes, methodId)
    requires SameRuntime(OnRuntime(probes, e0, rt0), rt0, OnRuntime(probes, e2, rt2), rt2, StartsOf(w))
    ensures Importable(b) && Importable(ReadBody(bytes)) && Simulation.Valid(OnNodes(w.before, OnRuntime(probes, e0, rt0)), w)
    ensures exists k: nat :: k >= n && SameBytesRun(OnRuntime(probes, e0, rt0), OnRuntime(probes, e2, rt2), b, ReadBody(bytes), w, rest, n, k)
  {
    hide Achieved, ReadBody, Corresponds, SameRuntime, StartsOf, Proper, Fitting, Execution, SameBytesRun, Trace, Origins, Itself, OnNodes,
         Simulation.Valid, Importable, Denoted;
    AchievedRewritten(b, bytes, w, probes, s, methodId, isMain);
    StartsDistinct(probes, w);
    RuntimeCorresponds(probes, e0, rt0, e2, rt2, StartsOf(w));
    BytesPreserveMeaning(OnRuntime(probes, e0, rt0), OnRuntime(probes, e2, rt2), b, bytes, w, s, methodId, isMain, rest, n);
  }

  lemma AchievedRewritten(b: Body, bytes: seq<byte>, w: Rewriting<ILInstr>, probes: map<int, nat>, s: Probes, methodId: int, isMain: bool)
    requires Achieved(b, bytes, w, probes, s, methodId, isMain)
    ensures Rewritten(probes, w)
  {
    hide Rewritten, NumberedAs, Exported, AllCovered, Truthful, ClausesInside, EnterEvents, Denoted;
  }
}
