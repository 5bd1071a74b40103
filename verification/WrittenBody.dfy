/** The body that is written renders the rewritten list: the decoder finds the same instructions, with numbers for nodes and
    long branches for some short ones, in the same exception regions. */
module WrittenBody {
  import opened Bytes
  import opened Opcodes
  import opened Listings
  import opened Machine
  import opened Blocks
  import opened Simulation
  import opened Growth
  import opened MethodBody
  import opened Codec
  import opened Relaxation
  import opened Importing
  import opened ExceptionClauses
  import opened BodyFormat
  import opened Reassembly
  import opened Numbering
  import opened NumberedRuns

  // Operands fit

  predicate FitsInstr<N>(x: Instr<N>) {
    IsBare(x.op) || x.op == CEE_SWITCH || x.arg.Target? || InSigned(x.arg.value, OperandSize(x.op))
  }

  predicate EventFits(e: Event) {
    forall a :: a in e.args ==> InSigned(a, 4)
  }

  lemma TokenFits<N>(arg: Operand<N>)
    requires IsToken(arg)
    ensures InSigned(arg.value, 4)
  {
    Powers();
  }

  lemma ProbeFits<N>(probes: map<int, nat>, code: map<N, Instr<N>>, s: seq<N>, i: nat)
    requires IsProbe(probes, code, s) && i < 4 && (forall a :: a in probes ==> InSigned(a, 8)) && EventFits(EventOf(probes, code, s))
    ensures FitsInstr(code[s[i]])
  {
    hide InSigned;
    TokenFits(code[s[3]].arg);
    var e := EventOf(probes, code, s);
    assert e.args[0] in e.args && e.args[1] in e.args;
  }

  lemma {:induction false} NeutralFits<N>(probes: map<int, nat>, code: map<N, Instr<N>>, s: seq<N>, i: nat)
    requires Neutral(probes, code, s) && i < |s| && (forall a :: a in probes ==> InSigned(a, 8))
    requires forall e :: e in Events(probes, code, s) ==> EventFits(e)
    ensures s[i] in code && FitsInstr(code[s[i]])
    decreases |s|
  {
    hide InSigned, EventFits, IsToken;
    if code[s[0]].op == CEE_NOP {
      if i > 0 { NeutralFits(probes, code, s[1..], i - 1); }
    } else {
      assert IsProbe(probes, code, s[..4]);
      if i < 4 {
        assert s[i] == s[..4][i];
        ProbeFits(probes, code, s[..4], i);
      } else {
        NeutralFits(probes, code, s[4..], i - 4);
      }
    }
  }

  lemma EnterFits<N>(probes: map<int, nat>, code: map<N, Instr<N>>, s: seq<N>, i: nat)
    requires IsEnterProbe(probes, code, s) && i < |s| && (forall a :: a in probes ==> InSigned(a, 8))
    requires forall e :: e in EnterEvents(probes, code, s) ==> EventFits(e)
    ensures FitsInstr(code[s[i]])
  {
    hide InSigned;
    TokenFits(code[s[4]].arg);
    var e := EnterEvents(probes, code, s)[0];
    assert e in EnterEvents(probes, code, s);
    assert e.args[0] in e.args && e.args[1] in e.args;
  }

  /** The probes and what they report fit their operands. */
  ghost predicate ProbesFit<N>(probes: map<int, nat>, w: Rewriting<N>) {
    && (forall a :: a in probes ==> InSigned(a, 8))
    && (w.enter == [] || IsEnterProbe(probes, w.after.code, w.enter))
    && (forall e :: e in EnterEvents(probes, w.after.code, w.enter) ==> EventFits(e))
    && (forall k, e :: 0 <= k < |w.blocks| && e in Fired(probes, w.after.code, w.blocks[k].pre) ==> EventFits(e))
    && (forall k, e :: 0 <= k < |w.blocks| && e in Fired(probes, w.after.code, w.blocks[k].post) ==> EventFits(e))
  }

  lemma OperandFits<N>(probes: map<int, nat>, w: Rewriting<N>, p: nat)
    requires Rewritten(probes, w) && ProbesFit(probes, w) && Canonical(Indexed(w.before)) && p < |w.after.order|
    ensures WellFormed(w.after) && FitsInstr(w.after.code[w.after.order[p]])
  {
    hide Start, Flatten, Distinct, IsEnterProbe, Neutral, Events, RegionsAt, MayPrecede, MayFollow, ValidBody, Shaped, EventFits, InSigned, FitsInstr;
    var o := w.after.order;
    if p < |w.enter| {
      EnterFits(probes, w.after.code, w.enter, p);
    } else {
      var m := SomeMachine(probes);
      RewrittenValid(probes, w);
      var k := Locate(w.blocks, p - |w.enter|);
      BlockNodes(m, w, k);
      var b := w.blocks[k];
      var q := p - w.At(k);
      assert GoodBlock(probes, w.before, w.after, |w.enter|, w.blocks, k);
      assert o[p] == b.Nodes()[q] by { assert o[w.At(k)..w.At(k + 1)][q] == b.Nodes()[q]; }
      if q < |b.pre| {
        NeutralFits(probes, w.after.code, b.pre, q);
      } else if q == |b.pre| {
        CanonicalFits(w.before, k);
      } else {
        NeutralFits(probes, w.after.code, b.post, q - |b.pre| - 1);
      }
    }
  }

  lemma CanonicalFits<N>(l: Listing<N>, k: nat)
    requires WellFormed(l) && Canonical(Indexed(l)) && k < |l.order|
    ensures FitsInstr(l.code[l.order[k]])
  {
    assert CanonicalAt(Indexed(l)[k]);
  }

  // Targets

  /** What carries a target, original or copied, branches to an original node. */
  lemma TargetIsHome<N>(probes: map<int, nat>, w: Rewriting<N>, p: nat)
    requires Rewritten(probes, w) && Plain(w.before) && p < |w.after.order|
    ensures WellFormed(w.after)
    ensures var x := w.after.code[w.after.order[p]];
            && (x.arg.Target? && !IsBare(x.op) ==> x.arg.node in w.before.order && OperandSize(x.op) > 0)
            && (IsPrefix(x.op) ==> x.arg.Bits?)
  {
    hide Instrumented, HasArms, IsEncodable, Carrier;
    AtPosition(probes, w, p);
    var x := w.after.code[w.after.order[p]];
    if !Inserted(x) {
      var k: nat :| Carries(w, p, k);
      OriginalTarget(w.before, k);
    }
  }

  lemma OriginalTarget<N>(l: Listing<N>, k: nat)
    requires ValidBody(l) && Shaped(Indexed(l)) && Plain(l) && k < |l.order|
    ensures var x := l.code[l.order[k]];
            && (x.arg.Target? ==> x.arg.node in l.order && OperandSize(x.op) > 0)
            && (IsPrefix(x.op) ==> x.arg.Bits?)
  {
    hide ValidClause, HasArms, IsEncodable;
    assert ValidAt(l, k) && ShapedAt(Indexed(l), k);
  }

  // The rendered instructions

  lemma RendersWritten<N>(probes: map<int, nat>, w: Rewriting<N>, p: nat)
    requires Rewritten(probes, w) && Plain(w.before) && ProbesFit(probes, w) && Canonical(Indexed(w.before))
    requires WellFormed(w.after) && Targeted(Indexed(w.after)) && p < |w.after.order|
    ensures RendersInstr(w.after, w.after.code[w.after.order[p]], Normal(Relaxed(Indexed(w.after)))[p])
  {
    hide Rewritten, ProbesFit, Place, Relaxed, Targeted, Fits, Canonical;
    var c := Indexed(w.after);
    var x, y := w.after.code[w.after.order[p]], Relaxed(c)[p];
    assert WiderAt(c, Relaxed(c), p);
    OperandFits(probes, w, p);
    TargetIsHome(probes, w, p);
    if !IsBare(x.op) {
      if x.arg.Target? {
        HomeInAfter(probes, w, x.arg.node);
      } else {
        KeptOperand(y);
      }
    }
  }

  lemma HomeInAfter<N>(probes: map<int, nat>, w: Rewriting<N>, n: N)
    requires Rewritten(probes, w) && n in w.before.order
    ensures n in w.after.order
  {
    hide Rewritten;
    RewrittenLengths(probes, w);
    HomePlace(probes, w, Pos(w.before.order, n));
  }

  lemma RewrittenLengths<N>(probes: map<int, nat>, w: Rewriting<N>)
    requires Rewritten(probes, w)
    ensures WellFormed(w.before) && WellFormed(w.after) && |w.blocks| == |w.before.order| && |w.before.clauses| == |w.after.clauses|
  {
  }

  lemma KeptOperand(y: Instr<nat>)
    requires y.arg.Bits? && (y.op == CEE_SWITCH || InSigned(y.arg.value, OperandSize(y.op)))
    ensures NormalOperand(y) == y.arg
  {
    if y.op != CEE_SWITCH { SignedRoundTrip(y.arg.value, OperandSize(y.op)); }
  }

  // The rendered clauses

  /** The clause of the body that is read starts and ends with instructions. */
  ghost predicate StartsClean<N>(l: Listing<N>, x: Clause<N>)
    requires WellFormed(l)
  {
    var c := Indexed(l);
    && Starts(c, Place(l, x.tryBegin)) && Starts(c, Place(l, x.tryEnd)) && Starts(c, Place(l, x.handlerBegin))
    && Place(l, x.handlerEnd) < |c| && Starts(c, Place(l, x.handlerEnd) + 1)
    && (x.kind.Filtered? ==> Starts(c, Place(l, x.kind.filter)))
  }

  /** A boundary stays in front of its instruction. */
  lemma StartKept<N>(probes: map<int, nat>, w: Rewriting<N>, n: N)
    requires Rewritten(probes, w) && WellFormed(w.before) && WellFormed(w.after) && (n in w.before.order || n == w.after.end)
    requires Starts(Indexed(w.before), Place(w.before, n))
    ensures Starts(Indexed(w.after), Place(w.after, n))
  {
    hide Rewritten;
    if n in w.before.order {
      RewrittenLengths(probes, w);
      HomePlace(probes, w, Pos(w.before.order, n));
    }
  }

  /** A handler ends where the block of its last instruction ends. */
  lemma HandlerEndKept<N>(probes: map<int, nat>, w: Rewriting<N>, i: nat)
    requires Rewritten(probes, w) && ClausesInside(w.after) && WellFormed(w.before) && WellFormed(w.after)
    requires i < |w.before.clauses| && ClauseSane(w.before, w.before.clauses[i]) && StartsClean(w.before, w.before.clauses[i])
    ensures i < |w.after.clauses|
    ensures Starts(Indexed(w.after), Place(w.after, w.after.clauses[i].handlerEnd) + 1)
  {
    hide Rewritten, ClausesInside, Place, Start;
    RewrittenLengths(probes, w);
    var x, x' := w.before.clauses[i], w.after.clauses[i];
    var e: nat := Place(w.before, x.handlerEnd);
    var a: nat :| a < |w.before.order| && InHandler(w.before, x, a);
    assert InHandler(w.before, x, e);
    BlockStarts(probes, w, e);
    SameRegions(probes, w, e, w.At(e + 1) - 1, i);
    if e + 1 < |w.blocks| {
      BlockStarts(probes, w, e + 1);
      SameRegions(probes, w, e + 1, w.At(e + 1), i);
      assert Place(w.after, x'.handlerEnd) + 1 == w.At(e + 1);
      HomePlace(probes, w, e + 1);
    } else {
      LastBlock(probes, w);
    }
  }

  lemma LastBlock<N>(probes: map<int, nat>, w: Rewriting<N>)
    requires Rewritten(probes, w)
    ensures w.At(|w.blocks|) == |w.after.order|
  {
    hide GoodBlock, ValidBody;
  }

  lemma KeptClause<N>(probes: map<int, nat>, w: Rewriting<N>, i: nat)
    requires Rewritten(probes, w) && i < |w.before.clauses|
    ensures |w.after.clauses| == |w.before.clauses| && w.after.end == w.before.end && ValidClause(w.before, w.before.clauses[i])
    ensures w.after.clauses[i] == w.before.clauses[i].(handlerEnd := w.after.clauses[i].handlerEnd)
  {
    hide GoodBlock, ValidClause;
  }

  /** In any layout of the rewritten list the clauses consist of whole instructions. */
  lemma SoundWritten<N>(probes: map<int, nat>, w: Rewriting<N>, d: Code, i: nat)
    requires Rewritten(probes, w) && ClausesInside(w.after) && i < |w.before.clauses| && WellFormed(w.before) && WellFormed(w.after)
    requires ClauseSane(w.before, w.before.clauses[i]) && StartsClean(w.before, w.before.clauses[i])
    requires |d| == |w.after.order| && forall p :: 0 <= p < |d| ==> (d[p].op == CEE_SWITCH_ARG <==> Indexed(w.after)[p].op == CEE_SWITCH_ARG)
    ensures i < |w.after.clauses| && Sound(d, IndexedClause(w.after, w.after.clauses[i]))
  {
    hide Rewritten, ClausesInside, Place, ClauseSane;
    KeptClause(probes, w, i);
    RewrittenOrdered(probes, w, d, i);
    var x := w.before.clauses[i];
    StartKept(probes, w, x.tryBegin);
    StartKept(probes, w, x.tryEnd);
    StartKept(probes, w, x.handlerBegin);
    if x.kind.Filtered? { StartKept(probes, w, x.kind.filter); }
    HandlerEndKept(probes, w, i);
  }

  /** What the decoder makes of the written body renders the rewritten list. */
  lemma WrittenRenders<N>(probes: map<int, nat>, w: Rewriting<N>, b: Body)
    requires Rewritten(probes, w) && Plain(w.before) && ProbesFit(probes, w) && Canonical(Indexed(w.before))
    requires WellFormed(w.before) && WellFormed(w.after) && Targeted(Indexed(w.after)) && ClausesInside(w.after)
    requires forall i :: 0 <= i < |w.before.clauses| ==> ClauseSane(w.before, w.before.clauses[i]) && StartsClean(w.before, w.before.clauses[i])
    requires CodeSize(Relaxed(Indexed(w.after))) < TWO_TO_THE_31 && Shaped(Relaxed(Indexed(w.after)))
    requires b.Body? && Decode(b.code) == Decoded(Normal(Relaxed(Indexed(w.after)))) && |b.clauses| == |w.after.clauses|
    requires forall i :: 0 <= i < |b.clauses| ==>
               var y := IndexedClause(w.after, w.after.clauses[i]);
               RefersInto(Relaxed(Indexed(w.after)), y) && b.clauses[i] == Exports(Relaxed(Indexed(w.after)), y)
    ensures Importable(b) && Renders(w.after, Denoted(b))
  {
    hide Rewritten, Place, Relaxed, Shaped, Targeted, Fits, Canonical, Off, ClauseSane, StartsClean, Decode, Imports, Exports, RefersInto,
         ClausesInside, RendersInstr, ProbesFit, IndexedClause, Plain, NormalOperand;
    RewrittenLengths(probes, w);
    var r := Relaxed(Indexed(w.after));
    var c := Normal(r);
    forall i | 0 <= i < |b.clauses| ensures Imports(c, b.clauses[i]) == Resolution(IndexedClause(w.after, w.after.clauses[i])) {
      WrittenClause(probes, w, i);
    }
    forall p | 0 <= p < |w.after.order| ensures RendersInstr(w.after, w.after.code[w.after.order[p]], c[p]) {
      RendersWritten(probes, w, p);
    }
    var d := Denoted(b);
    assert |d.order| == |c| == |w.after.order|;
    assert forall p :: 0 <= p < |c| ==> d.order[p] == p && d.code[p] == c[p];
    assert d.clauses == IndexedClauses(w.after);
  }

  lemma WrittenClause<N>(probes: map<int, nat>, w: Rewriting<N>, i: nat)
    requires Rewritten(probes, w) && WellFormed(w.before) && WellFormed(w.after) && Targeted(Indexed(w.after)) && ClausesInside(w.after)
    requires i < |w.before.clauses| && ClauseSane(w.before, w.before.clauses[i]) && StartsClean(w.before, w.before.clauses[i])
    requires CodeSize(Relaxed(Indexed(w.after))) < TWO_TO_THE_31 && Shaped(Relaxed(Indexed(w.after)))
    ensures i < |w.after.clauses|
    ensures var r, y := Relaxed(Indexed(w.after)), IndexedClause(w.after, w.after.clauses[i]);
            RefersInto(r, y) && Imports(Normal(r), Exports(r, y)) == Resolution(y)
  {
    hide Rewritten, Place, Fits, ClauseSane, StartsClean, Imports, ClausesInside, IndexedClause, Off, Shaped, NormalOperand;
    var c := Indexed(w.after);
    var r := Relaxed(c);
    forall p | 0 <= p < |r| ensures r[p].op == CEE_SWITCH_ARG <==> c[p].op == CEE_SWITCH_ARG { assert WiderAt(c, r, p); }
    NormalShape(r);
    SoundWritten(probes, w, r, i);
    SoundWritten(probes, w, Normal(r), i);
    var y := IndexedClause(w.after, w.after.clauses[i]);
    ImportsExports(Normal(r), y);
  }
}
