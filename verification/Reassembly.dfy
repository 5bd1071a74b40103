/** A rewritten method can be exported, and its bytes say what the rewritten list says. */
module Reassembly {
  import opened Bytes
  import opened Opcodes
  import opened Listings
  import opened Machine
  import opened Blocks
  import opened Simulation
  import opened Growth
  import opened MethodBody
  import opened Codec
  import opened Relaxation
  import opened Importing
  import opened Exporting
  import opened ExceptionClauses

  /** The instructions that the rewriter adds. */
  predicate Inserted<N>(x: Instr<N>) {
    || x.op == CEE_NOP || x.op == CEE_LDC_I4_0
    || ((x.op == CEE_LDC_I4 || x.op == CEE_LDC_I8 || x.op == CEE_CALLI) && x.arg.Bits?)
  }

  lemma {:induction false} NeutralInserted<N>(probes: map<int, nat>, code: map<N, Instr<N>>, s: seq<N>, i: nat)
    requires Neutral(probes, code, s) && i < |s|
    ensures s[i] in code && Inserted(code[s[i]])
    decreases |s|
  {
    if code[s[0]].op == CEE_NOP {
      if i > 0 { NeutralInserted(probes, code, s[1..], i - 1); }
    } else {
      assert IsProbe(probes, code, s[..4]);
      if i < 4 { assert s[i] == s[..4][i]; } else { NeutralInserted(probes, code, s[4..], i - 4); }
    }
  }

  lemma EnterInserted<N>(probes: map<int, nat>, code: map<N, Instr<N>>, s: seq<N>, i: nat)
    requires IsEnterProbe(probes, code, s) && i < |s|
    ensures s[i] in code && Inserted(code[s[i]])
  {
  }

  /** A rewriting of a body whose code is well shaped. */
  ghost predicate Rewritten<N>(probes: map<int, nat>, w: Rewriting<N>) {
    && ValidBody(w.before) && Shaped(Indexed(w.before))
    && Instrumented(probes, w.before, w.after, w.enter, w.blocks)
  }

  /** The facts of the simulation do not depend on the meaning of the instructions. */
  ghost function SomeMachine<N>(probes: map<int, nat>): Machine<N, int> {
    Machine(probes, {}, (f, r, c) => Halt(c))
  }

  lemma RewrittenValid<N>(probes: map<int, nat>, w: Rewriting<N>)
    requires Rewritten(probes, w)
    ensures Simulation.Valid(SomeMachine(probes), w)
  {
    hide Instrumented, ValidClause, Shaped;
    forall p | 0 <= p < |w.before.order| && w.before.code[w.before.order[p]].op == CEE_SWITCH
      ensures w.before.code[w.before.order[p]].arg.Bits? && w.before.code[w.before.order[p]].arg.value >= 0
           && IsSwitch(w.before, p, w.before.code[w.before.order[p]].arg.value)
    {
      assert ValidAt(w.before, p);
    }
  }

  /** Position `p` of the rewritten list holds the original instruction `k`. */
  ghost predicate Carries<N>(w: Rewriting<N>, p: nat, k: nat)
  {
    && k < |w.blocks| == |w.before.order| && p == Carrier(w, k) && p < |w.after.order|
    && WellFormed(w.before) && WellFormed(w.after)
    && w.after.code[w.after.order[p]] == w.before.code[w.before.order[k]]
  }

  /** Every position holds an inserted instruction or carries an original one. */
  lemma AtPosition<N>(probes: map<int, nat>, w: Rewriting<N>, p: nat)
    requires Rewritten(probes, w) && p < |w.after.order|
    ensures WellFormed(w.after)
    ensures Inserted(w.after.code[w.after.order[p]]) || exists k: nat :: Carries(w, p, k)
  {
    hide Start, Flatten, Distinct, IsEnterProbe, Neutral, RegionsAt, MayPrecede, MayFollow, ValidBody, Shaped, Inserted;
    var o := w.after.order;
    if p < |w.enter| {
      EnterInserted(probes, w.after.code, w.enter, p);
    } else {
      var m := SomeMachine(probes);
      RewrittenValid(probes, w);
      var k := Locate(w.blocks, p - |w.enter|);
      BlockNodes(m, w, k);
      var b := w.blocks[k];
      var q := p - w.At(k);
      assert GoodBlock(probes, w.before, w.after, |w.enter|, w.blocks, k);
      assert o[p] == b.Nodes()[q] by { assert o[w.At(k)..w.At(k + 1)][q] == b.Nodes()[q]; }
      if q < |b.pre| {
        NeutralInserted(probes, w.after.code, b.pre, q);
      } else if q == |b.pre| {
        assert Carries(w, p, k);
      } else {
        NeutralInserted(probes, w.after.code, b.post, q - |b.pre| - 1);
      }
    }
  }

  lemma SameCarrier<N>(w: Rewriting<N>, j: nat, k: nat)
    requires j < |w.blocks| && k < |w.blocks| && Carrier(w, j) == Carrier(w, k)
    ensures j == k
  {
    if j < k { StartMonotone(w.blocks, j, k); }
    if k < j { StartMonotone(w.blocks, k, j); }
  }

  /** The node that branches to instruction `j` lead to is the first of its block. */
  lemma HomePlace<N>(probes: map<int, nat>, w: Rewriting<N>, j: nat)
    requires Rewritten(probes, w) && j < |w.blocks|
    ensures WellFormed(w.before) && WellFormed(w.after) && j < |w.before.order|
    ensures w.At(j) < |w.after.order| && w.before.order[j] == w.after.order[w.At(j)]
    ensures Place(w.after, w.before.order[j]) == w.At(j)
    ensures w.before.code[w.before.order[j]].op != CEE_SWITCH_ARG ==> w.after.code[w.after.order[w.At(j)]].op != CEE_SWITCH_ARG
  {
    hide Start, Flatten, IsEnterProbe, Neutral, RegionsAt, MayPrecede, MayFollow, ValidBody, Shaped;
    var m := SomeMachine(probes);
    RewrittenValid(probes, w);
    BlockNodes(m, w, j);
    var b := w.blocks[j];
    assert GoodBlock(probes, w.before, w.after, |w.enter|, w.blocks, j);
    assert w.after.order[w.At(j)..w.At(j + 1)][0] == b.Nodes()[0] == b.Home();
    PosUnique(w.after.order, w.At(j));
    if b.pre != [] { NeutralInserted(probes, w.after.code, b.pre, 0); }
  }

  lemma ArmCarried<N>(probes: map<int, nat>, w: Rewriting<N>, p: nat, k: nat)
    requires Rewritten(probes, w) && Carries(w, p, k) && w.before.code[w.before.order[k]].op == CEE_SWITCH_ARG
    ensures k > 0 && p > 0 && Carries(w, p - 1, k - 1)
    ensures w.before.code[w.before.order[k - 1]].op == CEE_SWITCH || w.before.code[w.before.order[k - 1]].op == CEE_SWITCH_ARG
  {
    hide Start, Flatten, IsEnterProbe, GoodBlock, RegionsAt, ValidBody, HasArms, Distinct;
    var m := SomeMachine(probes);
    RewrittenValid(probes, w);
    assert ShapedAt(Indexed(w.before), k);
    Adjacent(m, w, k - 1);
    Good(m, w, k - 1);
    BlockNodes(m, w, k - 1);
  }

  lemma SwitchCarried<N>(probes: map<int, nat>, w: Rewriting<N>, p: nat, k: nat)
    requires Rewritten(probes, w) && Carries(w, p, k) && w.before.code[w.before.order[k]].op == CEE_SWITCH
    ensures HasArms(Indexed(w.before), k) && HasArms(Indexed(w.after), p)
  {
    hide Start, Flatten, IsEnterProbe, GoodBlock, RegionsAt, ValidBody, Distinct, MayFollow, MayPrecede, Inserted, Carrier;
    var c0, c := Indexed(w.before), Indexed(w.after);
    var m := SomeMachine(probes);
    RewrittenValid(probes, w);
    assert ShapedAt(c0, k);
    var n := c0[k].arg.value;
    assert IsSwitch(w.before, k, n) by { SwitchIsSwitch(probes, w, k); }
    if n > 0 { ArmAligned(m, w, k, n, n); }
    assert Carries(w, p + n, k + n);
    forall i | p < i < p + 1 + n ensures i < |c| && c[i].op == CEE_SWITCH_ARG {
      ArmAligned(m, w, k, n, i - p);
    }
    if p + n + 1 < |c| && c[p + n + 1].op == CEE_SWITCH_ARG {
      NoMoreArms(probes, w, p + n, k + n);
      assert false;
    }
  }

  lemma SwitchIsSwitch<N>(probes: map<int, nat>, w: Rewriting<N>, k: nat)
    requires Rewritten(probes, w) && k < |w.before.order|
    requires w.before.code[w.before.order[k]].op == CEE_SWITCH
    ensures Indexed(w.before)[k].arg.Bits? && Indexed(w.before)[k].arg.value >= 0
    ensures IsSwitch(w.before, k, Indexed(w.before)[k].arg.value)
  {
    hide Instrumented, ValidClause, Shaped;
    assert ValidAt(w.before, k);
  }

  /** If an arm follows position `p`, then it is the original successor of what `p` carries. */
  lemma NoMoreArms<N>(probes: map<int, nat>, w: Rewriting<N>, p: nat, k: nat)
    requires Rewritten(probes, w) && Carries(w, p, k) && p + 1 < |w.after.order|
    requires w.after.code[w.after.order[p + 1]].op == CEE_SWITCH_ARG
    ensures k + 1 < |w.before.order| && w.before.code[w.before.order[k + 1]].op == CEE_SWITCH_ARG
  {
    hide Rewritten, Carrier, WellFormed;
    AtPosition(probes, w, p + 1);
    var j: nat :| Carries(w, p + 1, j);
    ArmCarried(probes, w, p + 1, j);
    SameCarrier(w, j - 1, k);
  }

  lemma CarriedOperand<N>(probes: map<int, nat>, w: Rewriting<N>, p: nat, k: nat)
    requires Rewritten(probes, w) && Carries(w, p, k)
    ensures var x, y := Indexed(w.before)[k], Indexed(w.after)[p];
            && y.op == x.op && (x.arg.Bits? ==> y.arg == x.arg)
            && (x.arg.Target? ==>
                  && x.arg.node < |w.blocks| && y.arg == Target(w.At(x.arg.node))
                  && w.At(x.arg.node) < |w.after.order| && Starts(Indexed(w.after), w.At(x.arg.node)))
  {
    hide Start, Flatten, IsEnterProbe, GoodBlock, RegionsAt, Distinct, MayFollow, MayPrecede, HasArms, IsEncodable, OperandSize,
         ValidClause, Carrier;
    var l0 := w.before;
    var x := l0.code[l0.order[k]];
    assert ShapedAt(Indexed(l0), k) && ValidAt(l0, k);
    if Indexed(l0)[k].arg.Target? {
      assert HasTarget(x.op);
      var j := Pos(l0.order, x.arg.node);
      HomePlace(probes, w, j);
    }
  }

  /** A rewritten body has the shape of a body. */
  lemma RewrittenShape<N>(probes: map<int, nat>, w: Rewriting<N>)
    requires Rewritten(probes, w)
    ensures WellFormed(w.after) && Shaped(Indexed(w.after)) && Targeted(Indexed(w.after))
  {
    hide Instrumented, ValidBody, Shaped, HasArms, IsEncodable, HasTarget, Starts, Carrier;
    assert WellFormed(w.after) by { RewrittenWellFormed(probes, w); }
    var c := Indexed(w.after);
    forall p | 0 <= p < |c| ensures ShapedAt(c, p) && (c[p].arg.Target? ==> c[p].arg.node <= |c| && Starts(c, c[p].arg.node)) {
      AtPosition(probes, w, p);
      if Inserted(w.after.code[w.after.order[p]]) {
        InsertedShaped(w.after, p);
      } else {
        var k: nat :| Carries(w, p, k);
        CarriedShaped(probes, w, p, k);
      }
    }
    ShapedEverywhere(c);
  }

  lemma ShapedEverywhere(c: Code)
    requires forall p :: 0 <= p < |c| ==> ShapedAt(c, p)
    ensures Shaped(c)
  {
  }

  lemma RewrittenWellFormed<N>(probes: map<int, nat>, w: Rewriting<N>)
    requires Rewritten(probes, w)
    ensures WellFormed(w.before) && WellFormed(w.after) && |w.blocks| == |w.before.order|
  {
  }

  lemma InsertedShaped<N>(l: Listing<N>, p: nat)
    requires WellFormed(l) && p < |l.order| && Inserted(l.code[l.order[p]])
    ensures ShapedAt(Indexed(l), p) && Indexed(l)[p].arg.Bits?
  {
  }

  lemma CarriedShaped<N>(probes: map<int, nat>, w: Rewriting<N>, p: nat, k: nat)
    requires Rewritten(probes, w) && Carries(w, p, k)
    ensures var c := Indexed(w.after);
            ShapedAt(c, p) && (c[p].arg.Target? ==> c[p].arg.node <= |c| && Starts(c, c[p].arg.node))
  {
    hide Instrumented, ValidBody, HasArms, IsEncodable, HasTarget, Starts, Carrier;
    var c0, c := Indexed(w.before), Indexed(w.after);
    assert ShapedAt(c0, k);
    CarriedOperand(probes, w, p, k);
    if c[p].op == CEE_SWITCH { SwitchCarried(probes, w, p, k); }
    if c[p].op == CEE_SWITCH_ARG { ArmCarried(probes, w, p, k); }
  }

  lemma RewrittenClosed<N>(probes: map<int, nat>, w: Rewriting<N>)
    requires Rewritten(probes, w)
    ensures WellFormed(w.after) && Closed(w.after)
  {
    hide Instrumented, ValidBody, Shaped, HasArms, IsEncodable, HasTarget, Carrier, ShapedAt, OperandSize;
    assert WellFormed(w.after) by { RewrittenWellFormed(probes, w); }
    var l := w.after;
    forall n | n in l.order && l.code[n].arg.Target? && OperandSize(l.code[n].op) > 0
      ensures l.code[n].arg.node in l.order || l.code[n].arg.node == l.end
    {
      var p := Pos(l.order, n);
      AtPosition(probes, w, p);
      if Inserted(l.code[l.order[p]]) {
        InsertedShaped(l, p);
        assert false;
      } else {
        var k: nat :| Carries(w, p, k);
        CarriedTarget(probes, w, p, k);
      }
    }
  }

  lemma CarriedTarget<N>(probes: map<int, nat>, w: Rewriting<N>, p: nat, k: nat)
    requires Rewritten(probes, w) && Carries(w, p, k)
    ensures var x := w.after.code[w.after.order[p]];
            x.arg.Target? && OperandSize(x.op) > 0 ==> x.arg.node in w.after.order
  {
    hide Start, Flatten, IsEnterProbe, GoodBlock, RegionsAt, Distinct, MayFollow, MayPrecede, HasArms, IsEncodable, OperandSize,
         ValidClause, Carrier;
    var l0 := w.before;
    var x := l0.code[l0.order[k]];
    assert ShapedAt(Indexed(l0), k) && ValidAt(l0, k);
    if x.arg.Target? && OperandSize(x.op) > 0 {
      assert HasTarget(x.op);
      HomePlace(probes, w, Pos(l0.order, x.arg.node));
    }
  }

  // Exception regions in the exported body

  /** What the runtime demands of an exception clause: it guards some instruction and has a handler. */
  ghost predicate ClauseSane<N>(l: Listing<N>, x: Clause<N>) {
    && 0 <= x.flags < TWO_TO_THE_32 && (x.kind.Filtered? <==> IsFilter(x.flags))
    && (x.kind.Typed? ==> 0 <= x.kind.classToken < TWO_TO_THE_32)
    && (exists k: nat :: k < |l.order| && InTry(l, x, k)) && (exists k: nat :: k < |l.order| && InHandler(l, x, k))
  }

  /** The interval of bytes that an exported clause gives for a region contains the offset `o`. */
  predicate Covers(start: nat, length: nat, o: nat) {
    start <= o < start + length
  }

  lemma SameRegions<N>(probes: map<int, nat>, w: Rewriting<N>, k: nat, p: nat, i: nat)
    requires Rewritten(probes, w) && k < |w.blocks| && w.At(k) <= p < w.At(k + 1) && i < |w.before.clauses|
    ensures i < |w.after.clauses| && p < |w.after.order|
    ensures InTry(w.after, w.after.clauses[i], p) <==> InTry(w.before, w.before.clauses[i], k)
    ensures InFilter(w.after, w.after.clauses[i], p) <==> InFilter(w.before, w.before.clauses[i], k)
    ensures InHandler(w.after, w.after.clauses[i], p) <==> InHandler(w.before, w.before.clauses[i], k)
  {
    hide Start, Flatten, IsEnterProbe, Neutral, MayPrecede, MayFollow, ValidBody, Shaped, Distinct, InTry, InFilter, InHandler;
    var m := SomeMachine(probes);
    RewrittenValid(probes, w);
    BlockNodes(m, w, k);
    assert GoodBlock(probes, w.before, w.after, |w.enter|, w.blocks, k);
    assert RegionsAt(w.after, p) == RegionsAt(w.before, k);
    var r, r' := RegionsAt(w.before, k), RegionsAt(w.after, p);
    assert i in r'.tries <==> i in r.tries;
    assert i in r'.filters <==> i in r.filters;
    assert i in r'.handlers <==> i in r.handlers;
  }

  /** The clause of a rewritten list is in order, in any layout of the list. */
  lemma RewrittenOrdered<N>(probes: map<int, nat>, w: Rewriting<N>, d: Code, i: nat)
    requires Rewritten(probes, w) && ClausesInside(w.after) && |d| == |w.after.order| && i < |w.before.clauses|
    requires ClauseSane(w.before, w.before.clauses[i])
    ensures i < |w.after.clauses| && Ordered(d, IndexedClause(w.after, w.after.clauses[i]))
    ensures ClauseBelongs(w.after, w.after.clauses[i])
  {
    hide Start, Flatten, IsEnterProbe, GoodBlock, ValidBody, Shaped, Distinct, Pos;
    var x := w.before.clauses[i];
    var a: nat :| a < |w.before.order| && InTry(w.before, x, a);
    var b: nat :| b < |w.before.order| && InHandler(w.before, x, b);
    BlockStarts(probes, w, a);
    BlockStarts(probes, w, b);
    SameRegions(probes, w, a, w.At(a), i);
    SameRegions(probes, w, b, w.At(b), i);
    assert ClauseInside(w.after, w.after.clauses[i]);
  }

  lemma BlockStarts<N>(probes: map<int, nat>, w: Rewriting<N>, k: nat)
    requires Rewritten(probes, w) && k < |w.blocks|
    ensures w.At(k) < w.At(k + 1)
  {
    BlockAt(w.blocks, k);
  }

  /** Exception regions survive instrumentation down to the bytes: the offsets that are exported for a clause contain an
      instruction of the rewritten method exactly if the original clause contains the original instruction that it
      belongs to. */
  lemma RegionsExported<N>(probes: map<int, nat>, w: Rewriting<N>, d: Code, i: nat, k: nat, p: nat)
    requires Rewritten(probes, w) && ClausesInside(w.after)
    requires WellFormed(w.after) && Wider(Indexed(w.after), d) && CodeSize(d) < TWO_TO_THE_31
    requires i < |w.before.clauses| && ClauseSane(w.before, w.before.clauses[i])
    requires k < |w.blocks| && w.At(k) <= p < w.At(k + 1)
    ensures i < |w.after.clauses| && p < |d| && RefersInto(d, IndexedClause(w.after, w.after.clauses[i]))
    ensures var f := Exports(d, IndexedClause(w.after, w.after.clauses[i]));
            && (InTry(w.before, w.before.clauses[i], k) <==> Covers(f.tryOffset, f.tryLength, Off(d, p)))
            && (InHandler(w.before, w.before.clauses[i], k) <==> Covers(f.handlerOffset, f.handlerLength, Off(d, p)))
            && (w.before.clauses[i].kind.Filtered? ==>
                  (InFilter(w.before, w.before.clauses[i], k) <==> f.extra <= Off(d, p) < f.handlerOffset))
  {
    hide Start, Flatten, GoodBlock, ValidBody, Shaped, Distinct, Pos, Place, IsEnterProbe, ClauseSane, ClausesInside, WiderAt;
    RewrittenShape(probes, w);
    WiderShape(Indexed(w.after), d);
    RewrittenOrdered(probes, w, d, i);
    SameRegions(probes, w, k, p, i);
    ExportsDenote(d, IndexedClause(w.after, w.after.clauses[i]), p);
  }

  /** The offset that a probe reports is where the instruction stands in the code bytes that were imported. */
  lemma {:induction false} OffsetIsImported<N>(l: Listing<N>, b: seq<byte>, k: nat)
    requires WellFormed(l) && |b| < TWO_TO_THE_31 && Decode(b) == Decoded(Indexed(l)) && k < |l.order|
    ensures Shaped(Indexed(l)) && Targeted(Indexed(l)) && ShapedAt(Indexed(l), k)
    ensures OffsetAt(l, k + 1) <= |b| && b[OffsetAt(l, k)..OffsetAt(l, k + 1)] == Chunk(Placed(Indexed(l)), k)
  {
    hide Decode, Chunk, ShapedAt;
    var c := Indexed(l);
    EncodeDecode(b);
    OffsetsAgree(l, k);
    OffsetsAgree(l, k + 1);
    PlacedShape(c);
    PlacedEncodable(c);
    assert HoldsAt(b, Placed(c), k);
  }

  lemma {:induction false} OffsetsAgree<N>(l: Listing<N>, k: nat)
    requires WellFormed(l) && k <= |l.order|
    ensures OffsetAt(l, k) == Off(Indexed(l), k)
  {
    if k > 0 { OffsetsAgree(l, k - 1); }
  }
}
