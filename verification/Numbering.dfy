/** A list and its numbered form: nodes are replaced by their positions. */
module Numbering {
  import opened Opcodes
  import opened Listings
  import opened MethodBody
  import opened Accounting
  import opened Codec
  import opened Importing
  import opened ExceptionClauses
  import opened BodyFormat
  import opened Reassembly

  /** A body whose nodes are simply numbered. */
  function Numbered(c: Code, xs: seq<Clause<nat>>): (l: Listing<nat>)
    ensures WellFormed(l) && |l.order| == |c|
  {
    Listing(seq(|c|, i requires 0 <= i < |c| => i), |c|, map i: nat | i < |c| :: c[i], xs)
  }

  function IndexedClauses<N(==)>(l: Listing<N>): (xs: seq<Clause<nat>>)
    ensures |xs| == |l.clauses|
  {
    seq(|l.clauses|, k requires 0 <= k < |l.clauses| => IndexedClause(l, l.clauses[k]))
  }

  /** The rewriter can read the body. */
  predicate Importable(b: Body) {
    b.Body? && Decode(b.code).Decoded? && forall k :: 0 <= k < |b.clauses| ==> Imports(Decode(b.code).code, b.clauses[k]).Resolution?
  }

  function Denoted(b: Body): (l: Listing<nat>)
    requires Importable(b)
    ensures WellFormed(l) && |l.clauses| == |b.clauses|
  {
    var c := Decode(b.code).code;
    Numbered(c, seq(|b.clauses|, k requires 0 <= k < |b.clauses| => Imports(c, b.clauses[k]).clause))
  }

  // A list is as valid as its numbered form

  ghost predicate NumberedAs<N>(l: Listing<N>, d: Listing<nat>) {
    && WellFormed(l) && Plain(l) && (forall k :: 0 <= k < |l.clauses| ==> ClauseBelongs(l, l.clauses[k]))
    && d == Numbered(Indexed(l), IndexedClauses(l))
  }

  lemma NumberedPos<N>(l: Listing<N>, d: Listing<nat>, k: nat)
    requires NumberedAs(l, d) && k <= |d.order|
    ensures Place(d, k) == k && (k in d.order <==> k < |d.order|) && (k in d.order ==> Pos(d.order, k) == k)
  {
    if k < |d.order| { PosUnique(d.order, k); }
  }

  lemma PlaceInside<N>(l: Listing<N>, n: N)
    ensures Place(l, n) < |l.order| <==> n in l.order
    ensures n in l.order ==> l.order[Place(l, n)] == n && Place(l, n) == Pos(l.order, n)
  {
  }

  lemma SameOps<N>(l: Listing<N>, d: Listing<nat>, p: int)
    requires NumberedAs(l, d)
    ensures OpAt(d, p) == OpAt(l, p)
  {
  }

  lemma SameInstr<N>(l: Listing<N>, d: Listing<nat>, p: nat)
    requires NumberedAs(l, d) && p < |l.order|
    ensures WellFormed(l) && WellFormed(d) && |d.order| == |l.order| && d.order[p] == p && p in d.code && l.order[p] in l.code
    ensures d.code[p] == Instr(l.code[l.order[p]].op, IndexedOperand(l, l.code[l.order[p]]))
    ensures l.code[l.order[p]].arg.Target? ==> OperandSize(l.code[l.order[p]].op) > 0
  {
  }

  lemma ValidInstr<N>(l: Listing<N>, d: Listing<nat>, p: nat)
    requires NumberedAs(l, d) && p < |l.order| && ValidAt(d, p)
    ensures ValidAt(l, p)
  {
    hide NumberedAs, Place, OperandSize, Indexed, IsEncodable, HasTarget, IsCall, IsPrefix, NeverPrefixed;
    SameInstr(l, d, p);
    var x, y := l.code[l.order[p]], d.code[p];
    SameOps(l, d, p - 1);
    SameOps(l, d, p - 2);
    SameOps(l, d, p + 1);
    SameOps(l, d, p + 2);
    if HasTarget(x.op) {
      PlaceInside(l, x.arg.node);
      var k: int := Place(l, x.arg.node);
      NumberedPos(l, d, k);
      SameOps(l, d, k);
      SameOps(l, d, k - 1);
    }
    if x.op == CEE_SWITCH {
      SameOps(l, d, p + y.arg.value + 1);
      forall j | p < j <= p + y.arg.value ensures l.code[l.order[j]].op == CEE_SWITCH_ARG && l.code[l.order[j]].arg.Target? {
        SameInstr(l, d, j);
      }
    }
  }

  lemma ValidNumberedClause<N>(l: Listing<N>, d: Listing<nat>, i: nat)
    requires NumberedAs(l, d) && i < |l.clauses| && |d.clauses| == |l.clauses|
    ensures d.clauses[i] == IndexedClause(l, l.clauses[i])
    ensures ValidClause(d, d.clauses[i]) ==> ValidClause(l, l.clauses[i])
    ensures ClauseSane(d, d.clauses[i]) ==> ClauseSane(l, l.clauses[i])
  {
    hide Place, OperandSize, Indexed, IsPrefix, Pos;
    var x, y := l.clauses[i], d.clauses[i];
    assert ClauseBelongs(l, x);
    SamePlaces(l, d, x.tryBegin);
    SamePlaces(l, d, x.tryEnd);
    SamePlaces(l, d, x.handlerBegin);
    SamePlaces(l, d, x.handlerEnd);
    if x.kind.Filtered? { SamePlaces(l, d, x.kind.filter); }
    assert |d.order| == |l.order|;
    if ClauseSane(d, y) {
      var k: nat :| k < |d.order| && InTry(d, y, k);
      assert InTry(l, x, k);
      var h: nat :| h < |d.order| && InHandler(d, y, h);
      assert InHandler(l, x, h);
    }
  }

  /** A boundary of a clause stands where its number says. */
  lemma SamePlaces<N>(l: Listing<N>, d: Listing<nat>, n: N)
    requires NumberedAs(l, d) && Belongs(l, n)
    ensures var k := Place(l, n);
            && Place(d, k) == k && (k in d.order <==> n in l.order) && (n !in l.order ==> n == l.end && k == d.end)
            && (n in l.order ==> Pos(d.order, k) == k && Pos(l.order, n) == k && n in l.code && k in d.code && l.code[n].op == d.code[k].op)
    ensures n in l.order ==> (Enterable(d, Place(l, n)) ==> Enterable(l, Place(l, n)))
  {
    hide IsPrefix, OperandSize;
    var k: int := Place(l, n);
    NumberedPos(l, d, k);
    PlaceInside(l, n);
    SameOps(l, d, k);
    SameOps(l, d, k - 1);
    if k < |l.order| { SameInstr(l, d, k); }
  }

  /** The rewriter may rely on its list if the bytes denote a valid method. */
  lemma ValidAsNumbered<N>(l: Listing<N>, d: Listing<nat>)
    requires NumberedAs(l, d) && ValidBody(d)
    ensures ValidBody(l)
  {
    hide ValidAt, ValidClause, ClauseSane, IndexedClause, ClauseBelongs, Plain, Indexed;
    assert WellFormed(l) && |d.order| == |l.order| && |d.clauses| == |l.clauses|;
    forall p | 0 <= p < |l.order| ensures ValidAt(l, p) { ValidInstr(l, d, p); }
    forall i | 0 <= i < |l.clauses| ensures ValidClause(l, l.clauses[i]) { ValidNumberedClause(l, d, i); }
  }

  // The numbered form has the same probes

  lemma SameHandlers<N>(l: Listing<N>, d: Listing<nat>, p: nat)
    requires NumberedAs(l, d)
    ensures HandlerStarts(l, p) <==> HandlerStarts(d, p)
  {
    hide Indexed, Place, Plain;
    assert |d.order| == |l.order| && |d.clauses| == |l.clauses|;
    if p < |l.order| {
      assert d.order[p] == p by { SameInstr(l, d, p); }
      forall i | 0 <= i < |l.clauses| ensures l.clauses[i].handlerBegin == l.order[p] <==> d.clauses[i].handlerBegin == d.order[p] {
        assert d.clauses[i] == IndexedClause(l, l.clauses[i]);
        PlaceInside(l, l.clauses[i].handlerBegin);
        PosUnique(l.order, p);
        PlaceInside(l, l.order[p]);
      }
    }
  }

  lemma SameTargets<N>(l: Listing<N>, d: Listing<nat>, t: nat)
    requires NumberedAs(l, d)
    ensures IsBranchTarget(l, t) <==> IsBranchTarget(d, t)
  {
    hide NumberedAs, Place, OperandSize, HasTarget;
    NumberedWellFormed(l, d);
    forall q: nat ensures Refers(l, q, t) <==> Refers(d, q, t) { SameReference(l, d, q, t); }
    if IsBranchTarget(l, t) { var q: nat :| Refers(l, q, t); assert Refers(d, q, t); }
    if IsBranchTarget(d, t) { var q: nat :| Refers(d, q, t); assert Refers(l, q, t); }
  }

  lemma SameReference<N>(l: Listing<N>, d: Listing<nat>, q: nat, t: nat)
    requires NumberedAs(l, d)
    ensures Refers(l, q, t) <==> Refers(d, q, t)
  {
    hide Place, OperandSize, HasTarget, Indexed;
    assert |d.order| == |l.order|;
    if q < |l.order| && t < |l.order| {
      SameOps(l, d, q);
      SameInstr(l, d, q);
      SameInstr(l, d, t);
      PosUnique(l.order, t);
      PlaceInside(l, l.order[t]);
      var x := l.code[l.order[q]];
      if x.arg.Target? { PlaceInside(l, x.arg.node); }
    }
  }

  lemma {:induction false} SameCounts<N>(l: Listing<N>, d: Listing<nat>, n: nat)
    requires NumberedAs(l, d)
    ensures ProbesUpTo(l, n) == ProbesUpTo(d, n) && FallsUpTo(l, n) == FallsUpTo(d, n)
    ensures HandlerPushes(l, n) == HandlerPushes(d, n) && TailsUpTo(l, n) == TailsUpTo(d, n)
  {
    hide NumberedAs, HandlerStarts, IsBranchTarget, OpAt, OpcodeIsBranch, IsCall, IsPrefix, Pushes;
    NumberedWellFormed(l, d);
    if n > 0 {
      SameCounts(l, d, n - 1);
      SameHandlers(l, d, n - 1);
      SameTargets(l, d, n);
      SameOps(l, d, n - 1);
      SameOps(l, d, n - 2);
      SameOps(l, d, n - 3);
    }
  }

  lemma NumberedWellFormed<N>(l: Listing<N>, d: Listing<nat>)
    requires NumberedAs(l, d)
    ensures WellFormed(l) && WellFormed(d) && |d.order| == |l.order| && |d.clauses| == |l.clauses|
  {
  }

  /** What rewriting costs can be read off the numbers. */
  lemma SameCosts<N>(l: Listing<N>, d: Listing<nat>)
    requires NumberedAs(l, d)
    ensures WellFormed(l) && WellFormed(d) && ExtraDepth(l) == ExtraDepth(d) && NodeCount(l) == NodeCount(d)
  {
    hide NumberedAs, ProbesUpTo, FallsUpTo, HandlerPushes, TailsUpTo;
    NumberedWellFormed(l, d);
    SameCounts(l, d, |l.order|);
  }
}
