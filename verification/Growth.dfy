/** Insertions of nodes behind a node of the list, and why they keep exception regions and the block structure. */
module Growth {
  import opened Opcodes
  import opened Listings
  import opened Machine
  import opened Blocks

  /** `l'` is `l` with the nodes `f` spliced in behind `t`; only the instruction of `t` may have changed. */
  ghost predicate Spliced<N>(l: Listing<N>, l': Listing<N>, t: N, f: seq<N>) {
    && WellFormed(l) && WellFormed(l')
    && t in l.order && f != []
    && l'.order == l.order[..Pos(l.order, t) + 1] + f + l.order[Pos(l.order, t) + 1..]
    && l'.end == l.end
    && (forall n :: n in l.order && n != t ==> n in l'.code && l'.code[n] == l.code[n])
  }

  /** A handler that ended with `t` now ends with `last`. */
  function MoveEnd<N(==)>(c: Clause<N>, t: N, last: N): Clause<N> {
    if c.handlerEnd == t then c.(handlerEnd := last) else c
  }

  ghost predicate EndsMoved<N>(l: Listing<N>, l': Listing<N>, t: N, last: N) {
    && |l'.clauses| == |l.clauses|
    && (forall i :: 0 <= i < |l.clauses| ==> l'.clauses[i] == MoveEnd(l.clauses[i], t, last))
  }

  /** A splice that keeps the handlers around `t` around the new nodes too. */
  ghost predicate Grown<N>(l: Listing<N>, l': Listing<N>, t: N, f: seq<N>) {
    Spliced(l, l', t, f) && EndsMoved(l, l', t, f[|f| - 1])
  }

  /** The nodes an exception clause refers to belong to the list; only the end of a try block may be its end. */
  predicate ClausesInside<N(==)>(l: Listing<N>) {
    forall i :: 0 <= i < |l.clauses| ==> ClauseInside(l, l.clauses[i])
  }

  predicate ClauseInside<N(==)>(l: Listing<N>, c: Clause<N>) {
    && c.tryBegin in l.order && c.handlerBegin in l.order && c.handlerEnd in l.order
    && (c.tryEnd in l.order || c.tryEnd == l.end)
    && (c.kind.Filtered? ==> c.kind.filter in l.order)
  }

  /** The position that a position of the grown list comes from; new nodes come from `p`. */
  function Back(q: nat, p: nat, n: nat): nat {
    if q <= p then q else if q <= p + n then p else q - n
  }

  function Forth(q: nat, p: nat, n: nat): nat {
    if q <= p then q else q + n
  }

  lemma SplicedAt<N>(l: Listing<N>, l': Listing<N>, t: N, f: seq<N>, q: nat)
    requires Spliced(l, l', t, f) && q < |l.order|
    ensures l.order[q] in l'.order && Pos(l'.order, l.order[q]) == Forth(q, Pos(l.order, t), |f|)
  {
    hide Pos;
    var p := Forth(q, Pos(l.order, t), |f|);
    assert l'.order[p] == l.order[q];
    PosUnique(l'.order, p);
  }

  lemma SplicedPlace<N>(l: Listing<N>, l': Listing<N>, t: N, f: seq<N>, n: N)
    requires Spliced(l, l', t, f) && (n in l.order || n == l.end)
    ensures Place(l', n) == Forth(Place(l, n), Pos(l.order, t), |f|)
  {
    hide Pos;
    if n in l.order {
      SplicedAt(l, l', t, f, Pos(l.order, n));
    }
  }

  lemma LastPlace<N>(l: Listing<N>, l': Listing<N>, t: N, f: seq<N>)
    requires Spliced(l, l', t, f)
    ensures f[|f| - 1] in l'.order && Place(l', f[|f| - 1]) == Pos(l.order, t) + |f|
  {
    hide Pos;
    var p := Pos(l.order, t);
    assert l'.order[p + |f|] == f[|f| - 1];
    PosUnique(l'.order, p + |f|);
  }

  lemma SamePlace<N>(l: Listing<N>, n: N, t: N)
    requires WellFormed(l) && t in l.order && Place(l, n) == Pos(l.order, t)
    ensures n == t
  {
  }

  lemma GrownClause<N>(l: Listing<N>, l': Listing<N>, t: N, f: seq<N>, c: Clause<N>, q: nat)
    requires Spliced(l, l', t, f) && ClauseInside(l, c)
    ensures var c', b := MoveEnd(c, t, f[|f| - 1]), Back(q, Pos(l.order, t), |f|);
            && (InTry(l', c', q) <==> InTry(l, c, b))
            && (InFilter(l', c', q) <==> InFilter(l, c, b))
            && (InHandler(l', c', q) <==> InHandler(l, c, b))
  {
    hide Pos, Place, WellFormed;
    SplicedPlace(l, l', t, f, c.tryBegin);
    SplicedPlace(l, l', t, f, c.tryEnd);
    SplicedPlace(l, l', t, f, c.handlerBegin);
    SplicedPlace(l, l', t, f, c.handlerEnd);
    if c.kind.Filtered? { SplicedPlace(l, l', t, f, c.kind.filter); }
    LastPlace(l, l', t, f);
    TargetPlace(l, t);
    if Place(l, c.handlerEnd) == Pos(l.order, t) { SamePlace(l, c.handlerEnd, t); }
  }

  lemma TargetPlace<N>(l: Listing<N>, t: N)
    requires t in l.order
    ensures Place(l, t) == Pos(l.order, t)
  {
  }

  lemma InsideAfter<N>(l: Listing<N>, l': Listing<N>, t: N, f: seq<N>, c: Clause<N>)
    requires Spliced(l, l', t, f) && ClauseInside(l, c)
    ensures ClauseInside(l', MoveEnd(c, t, f[|f| - 1])) && ClauseInside(l', c)
  {
    hide Pos, WellFormed;
    LastPlace(l, l', t, f);
    forall n | n in l.order ensures n in l'.order { SplicedAt(l, l', t, f, Pos(l.order, n)); }
  }

  lemma RegionsFromClauses<N>(l: Listing<N>, q: nat, l': Listing<N>, q': nat)
    requires |l.clauses| == |l'.clauses|
    requires forall i :: 0 <= i < |l.clauses| ==>
               && (InTry(l', l'.clauses[i], q') <==> InTry(l, l.clauses[i], q))
               && (InFilter(l', l'.clauses[i], q') <==> InFilter(l, l.clauses[i], q))
               && (InHandler(l', l'.clauses[i], q') <==> InHandler(l, l.clauses[i], q))
    ensures RegionsAt(l', q') == RegionsAt(l, q)
  {
    hide InTry, InFilter, InHandler;
  }

  /** Growing keeps the regions of every old node, and puts the new nodes into the regions of `t`. */
  lemma GrownRegions<N>(l: Listing<N>, l': Listing<N>, t: N, f: seq<N>, q: nat)
    requires Grown(l, l', t, f) && ClausesInside(l)
    ensures RegionsAt(l', q) == RegionsAt(l, Back(q, Pos(l.order, t), |f|))
  {
    hide WellFormed, InTry, InFilter, InHandler, Pos, ClauseInside, Back;
    forall i | 0 <= i < |l.clauses|
      ensures var b := Back(q, Pos(l.order, t), |f|);
              && (InTry(l', l'.clauses[i], q) <==> InTry(l, l.clauses[i], b))
              && (InFilter(l', l'.clauses[i], q) <==> InFilter(l, l.clauses[i], b))
              && (InHandler(l', l'.clauses[i], q) <==> InHandler(l, l.clauses[i], b))
    {
      GrownClause(l, l', t, f, l.clauses[i], q);
    }
    RegionsFromClauses(l, Back(q, Pos(l.order, t), |f|), l', q);
  }

  lemma GrownClausesInside<N>(l: Listing<N>, l': Listing<N>, t: N, f: seq<N>)
    requires Grown(l, l', t, f) && ClausesInside(l)
    ensures ClausesInside(l')
  {
    hide WellFormed, Pos, ClauseInside;
    forall i | 0 <= i < |l'.clauses| ensures ClauseInside(l', l'.clauses[i]) {
      InsideAfter(l, l', t, f, l.clauses[i]);
    }
  }
}
