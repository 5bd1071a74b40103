/** Exception clauses: byte offsets in a method body, nodes of the list in the rewriter. */
module ExceptionClauses {
  import opened Bytes
  import opened Opcodes
  import opened Listings
  import opened InstructionList
  import opened Codec
  import opened Relaxation
  import opened Importing
  import opened Exporting

  const CLAUSE_FILTER := 1

  /** A clause in the fat format.  `extra` is the class token or the offset of the filter. */
  datatype FatClause = FatClause(flags: nat, tryOffset: nat, tryLength: nat, handlerOffset: nat, handlerLength: nat, extra: nat)

  datatype Resolution = Resolution(clause: Clause<nat>) | Unresolvable

  predicate IsFilter(flags: nat) {
    flags % 2 == CLAUSE_FILTER
  }

  /** The index in front of `k`, the sentinel being in front of the first instruction. */
  function Before(c: Code, k: nat): nat {
    if k == 0 then |c| else k - 1
  }

  /** The index behind `k`, the first instruction being behind the sentinel. */
  function After(c: Code, k: nat): nat {
    if k == |c| then 0 else k + 1
  }

  /** The clause that byte offsets denote in the code `c`. */
  function Imports(c: Code, f: FatClause): Resolution {
    var tryBegin := IndexOf(c, f.tryOffset, |c|);
    var tryEnd := IndexOf(c, (f.tryOffset + f.tryLength) % TWO_TO_THE_32, |c|);
    var handlerBegin := IndexOf(c, f.handlerOffset, |c|);
    var handlerEnd := IndexOf(c, (f.handlerOffset + f.handlerLength) % TWO_TO_THE_32, |c|);
    var filter := IndexOf(c, f.extra, |c|);
    if tryBegin < 0 || tryEnd < 0 || handlerBegin < 0 || handlerEnd < 0 || (IsFilter(f.flags) && filter < 0) then Unresolvable
    else Resolution(Clause(f.flags, tryBegin, tryEnd, handlerBegin, Before(c, handlerEnd),
                           if IsFilter(f.flags) then Filtered(filter) else Typed(f.extra)))
  }

  /** The clause refers to the code `c` or its end. */
  predicate RefersInto(c: Code, x: Clause<nat>) {
    && x.tryBegin <= |c| && x.tryEnd <= |c| && x.handlerBegin <= |c| && x.handlerEnd <= |c|
    && x.flags >= 0 && (x.kind.Filtered? <==> IsFilter(x.flags))
    && match x.kind case Filtered(n) => n <= |c| case Typed(token) => token >= 0
  }

  /** The byte offsets that denote the clause in the code `c`. */
  function Exports(c: Code, x: Clause<nat>): FatClause
    requires RefersInto(c, x)
  {
    FatClause(
      x.flags,
      Off(c, x.tryBegin), (Off(c, x.tryEnd) - Off(c, x.tryBegin)) % TWO_TO_THE_32,
      Off(c, x.handlerBegin), (Off(c, After(c, x.handlerEnd)) - Off(c, x.handlerBegin)) % TWO_TO_THE_32,
      match x.kind case Filtered(n) => Off(c, n) case Typed(token) => token)
  }

  /** The clause is not turned inside out. */
  predicate Ordered(c: Code, x: Clause<nat>) {
    RefersInto(c, x) && x.tryBegin <= x.tryEnd && x.handlerBegin <= x.handlerEnd < |c|
  }

  /** The clause consists of whole instructions, in order. */
  predicate Sound(c: Code, x: Clause<nat>) {
    && Ordered(c, x)
    && Starts(c, x.tryBegin) && Starts(c, x.tryEnd) && Starts(c, x.handlerBegin) && Starts(c, x.handlerEnd + 1)
    && (x.kind.Filtered? ==> Starts(c, x.kind.filter))
  }

  /** The exported clause denotes exactly the instructions of its regions: those whose offsets lie in the intervals. */
  lemma ExportsDenote(c: Code, x: Clause<nat>, i: nat)
    requires Shaped(c) && CodeSize(c) < TWO_TO_THE_31 && Ordered(c, x) && i < |c|
    ensures var f := Exports(c, x);
            && (x.tryBegin <= i < x.tryEnd <==> f.tryOffset <= Off(c, i) < f.tryOffset + f.tryLength)
            && (x.handlerBegin <= i <= x.handlerEnd <==> f.handlerOffset <= Off(c, i) < f.handlerOffset + f.handlerLength)
            && (x.kind.Filtered? ==>
                  (x.kind.filter <= i < x.handlerBegin <==> f.extra <= Off(c, i) < f.handlerOffset))
  {
    hide Off;
    OffGrows(c, x.tryBegin, x.tryEnd);
    OffGrows(c, x.tryEnd, |c|);
    OffGrows(c, x.handlerBegin, x.handlerEnd + 1);
    OffGrows(c, x.handlerEnd + 1, |c|);
    SameOrder(c, x.tryBegin, i);
    SameOrder(c, x.tryEnd, i);
    SameOrder(c, x.handlerBegin, i);
    SameOrder(c, x.handlerEnd + 1, i);
    if x.kind.Filtered? { SameOrder(c, x.kind.filter, i); }
  }

  lemma SameOrder(c: Code, i: nat, j: nat)
    requires Shaped(c) && i <= |c| && j <= |c|
    ensures i <= j <==> Off(c, i) <= Off(c, j)
  {
    if i < j { OffGrowsStrictly(c, i, j); } else if j < i { OffGrowsStrictly(c, j, i); }
  }

  /** Importing an exported clause gives back the same clause. */
  lemma ImportsExports(c: Code, x: Clause<nat>)
    requires Shaped(c) && CodeSize(c) < TWO_TO_THE_31 && Sound(c, x)
    ensures Imports(c, Exports(c, x)) == Resolution(x)
  {
    hide Off, IndexOf, Shaped;
    IndexFound(c, x.tryBegin, |c|);
    IndexFound(c, x.tryEnd, |c|);
    IndexFound(c, x.handlerBegin, |c|);
    IndexFound(c, x.handlerEnd + 1, |c|);
    if x.kind.Filtered? { IndexFound(c, x.kind.filter, |c|); }
    OffGrows(c, x.tryBegin, x.tryEnd);
    OffGrows(c, x.tryEnd, |c|);
    OffGrows(c, x.handlerBegin, x.handlerEnd + 1);
    OffGrows(c, x.handlerEnd + 1, |c|);
  }

  /** Exporting an imported clause gives back the same bytes, for any clause the importer can resolve. */
  lemma ExportsImports(c: Code, f: FatClause)
    requires Shaped(c) && CodeSize(c) < TWO_TO_THE_31 && f.tryLength < TWO_TO_THE_32 && f.handlerLength < TWO_TO_THE_32
    requires Imports(c, f).Resolution?
    ensures RefersInto(c, Imports(c, f).clause) && Exports(c, Imports(c, f).clause) == f
  {
    hide Off;
    var x := Imports(c, f).clause;
    var end := IndexOf(c, (f.handlerOffset + f.handlerLength) % TWO_TO_THE_32, |c|);
    assert After(c, Before(c, end)) == end;
    Subtract(f.tryOffset, f.tryLength);
    Subtract(f.handlerOffset, f.handlerLength);
  }

  lemma Subtract(a: nat, n: nat)
    requires n < TWO_TO_THE_32
    ensures ((a + n) % TWO_TO_THE_32 - a) % TWO_TO_THE_32 == n
  {
    var q := (a + n) / TWO_TO_THE_32;
    assert (a + n) % TWO_TO_THE_32 - a == n + TWO_TO_THE_32 * (-q);
    Congruent(n, TWO_TO_THE_32, -q);
    ModUnique(n, TWO_TO_THE_32, 0, n);
  }

  // Clauses of the list

  /** The clause of the list that an index clause stands for. */
  ghost function NodeClause(pilr: ILRewriter, y: Clause<nat>): Clause<ILInstr>
    requires y.tryBegin <= |pilr.nodes| && y.tryEnd <= |pilr.nodes| && y.handlerBegin <= |pilr.nodes| && y.handlerEnd <= |pilr.nodes|
    requires y.kind.Filtered? ==> y.kind.filter <= |pilr.nodes|
    reads pilr`nodes
  {
    Clause(y.flags, pilr.At(y.tryBegin + 1), pilr.At(y.tryEnd + 1), pilr.At(y.handlerBegin + 1), pilr.At(y.handlerEnd + 1),
           match y.kind case Typed(token) => Typed(token) case Filtered(n) => Filtered(pilr.At(n + 1)))
  }

  function IndexedClause<N(==)>(l: Listing<N>, x: Clause<N>): Clause<nat> {
    Clause(x.flags, Place(l, x.tryBegin), Place(l, x.tryEnd), Place(l, x.handlerBegin), Place(l, x.handlerEnd),
           match x.kind case Typed(token) => Typed(token) case Filtered(n) => Filtered(Place(l, n)))
  }

  predicate Belongs<N(==)>(l: Listing<N>, n: N) {
    n in l.order || n == l.end
  }

  /** The clause refers to nodes of the list. */
  predicate ClauseBelongs<N(==)>(l: Listing<N>, x: Clause<N>) {
    && Belongs(l, x.tryBegin) && Belongs(l, x.tryEnd) && Belongs(l, x.handlerBegin) && Belongs(l, x.handlerEnd)
    && (x.kind.Filtered? ==> Belongs(l, x.kind.filter))
  }

  lemma NodeAt(pilr: ILRewriter, n: ILInstr)
    requires pilr.Linked() && Belongs(pilr.View(), n)
    ensures pilr.At(Place(pilr.View(), n) + 1) == n
  {
  }

  lemma ClauseAt(pilr: ILRewriter, x: Clause<ILInstr>)
    requires pilr.Linked() && ClauseBelongs(pilr.View(), x)
    ensures NodeClause(pilr, IndexedClause(pilr.View(), x)) == x
  {
    hide ILRewriter.Linked, ILRewriter.At, ILRewriter.View, Place, Belongs;
    assert |pilr.View().order| == |pilr.nodes| by { OrderIsNodes(pilr); }
    NodeAt(pilr, x.tryBegin);
    NodeAt(pilr, x.tryEnd);
    NodeAt(pilr, x.handlerBegin);
    NodeAt(pilr, x.handlerEnd);
    if x.kind.Filtered? { NodeAt(pilr, x.kind.filter); }
  }

  lemma OrderIsNodes(pilr: ILRewriter)
    ensures pilr.View().order == pilr.nodes && pilr.View().clauses == pilr.clauses && pilr.View().end == pilr.head
  {
  }

  lemma ClauseFrom(pilr: ILRewriter, y: Clause<nat>)
    requires pilr.Linked()
    requires y.tryBegin <= |pilr.nodes| && y.tryEnd <= |pilr.nodes| && y.handlerBegin <= |pilr.nodes| && y.handlerEnd <= |pilr.nodes|
    requires y.kind.Filtered? ==> y.kind.filter <= |pilr.nodes|
    ensures ClauseBelongs(pilr.View(), NodeClause(pilr, y)) && IndexedClause(pilr.View(), NodeClause(pilr, y)) == y
  {
    hide ILRewriter.Linked, ILRewriter.At, ILRewriter.View, Place;
    OrderIsNodes(pilr);
    PlaceIs(pilr, y.tryBegin);
    PlaceIs(pilr, y.tryEnd);
    PlaceIs(pilr, y.handlerBegin);
    PlaceIs(pilr, y.handlerEnd);
    if y.kind.Filtered? { PlaceIs(pilr, y.kind.filter); }
  }

  lemma PlaceIs(pilr: ILRewriter, k: nat)
    requires pilr.Linked() && k <= |pilr.nodes|
    ensures Place(pilr.View(), pilr.At(k + 1)) == k && Belongs(pilr.View(), pilr.At(k + 1))
  {
    PlaceAt(pilr, k);
    InRing(pilr, k + 1);
  }

  // Reading and writing clauses

  lemma TableLength(table: array<ILInstr?>, pilr: ILRewriter, c: Code)
    requires OffsetTable(table, pilr, c)
    ensures |pilr.nodes| == |c|
  {
  }

  method ImportClause(pilr: ILRewriter, table: array<ILInstr?>, f: FatClause, ghost c: Code)
    returns (ok: bool, clause: Clause<ILInstr>)
    requires pilr.Linked() && OffsetTable(table, pilr, c)
    ensures ok <==> Imports(c, f).Resolution?
    ensures ok ==> RefersInto(c, Imports(c, f).clause) && clause == NodeClause(pilr, Imports(c, f).clause)
  {
    hide ILRewriter.Linked, ILRewriter.At, OffsetTable, IndexOf;
    TableLength(table, pilr, c);
    var h := pilr.head;
    ok, clause := false, Clause(f.flags, h, h, h, h, Typed(0));
    var tryBegin := GetInstrFromOffset(pilr, table, f.tryOffset, c);
    var tryEnd := GetInstrFromOffset(pilr, table, (f.tryOffset + f.tryLength) % TWO_TO_THE_32, c);
    var handlerBegin := GetInstrFromOffset(pilr, table, f.handlerOffset, c);
    var handlerEnd := GetInstrFromOffset(pilr, table, (f.handlerOffset + f.handlerLength) % TWO_TO_THE_32, c);
    if tryBegin == null || tryEnd == null || handlerBegin == null || handlerEnd == null {
      return;
    }
    PrevIs(pilr, IndexOf(c, (f.handlerOffset + f.handlerLength) % TWO_TO_THE_32, |c|));
    if f.flags % 2 != CLAUSE_FILTER {
      return true, Clause(f.flags, tryBegin, tryEnd, handlerBegin, handlerEnd.prev, Typed(f.extra));
    }
    var filter := GetInstrFromOffset(pilr, table, f.extra, c);
    if filter == null {
      return;
    }
    return true, Clause(f.flags, tryBegin, tryEnd, handlerBegin, handlerEnd.prev, Filtered(filter));
  }

  lemma PrevIs(pilr: ILRewriter, k: nat)
    requires pilr.Linked() && k <= |pilr.nodes|
    ensures pilr.At(k + 1).prev == if k == 0 then pilr.At(|pilr.nodes| + 1) else pilr.At(k)
  {
    var r := pilr.Ring();
    assert r[k + 1].prev == r[k];
  }

  lemma NextOf(pilr: ILRewriter, k: nat)
    requires pilr.Linked() && k <= |pilr.nodes|
    ensures pilr.At(k + 1).next == if k == |pilr.nodes| then pilr.At(1) else pilr.At(k + 2)
  {
    var r := pilr.Ring();
    if k < |pilr.nodes| { assert r[k + 1].next == r[k + 2]; } else { assert r[0].next == r[1]; }
  }

  /** Reads the exception clauses of a method. */
  method ImportEH(pilr: ILRewriter, table: array<ILInstr?>, fat: seq<FatClause>, ghost c: Code) returns (ok: bool)
    requires pilr.Linked() && OffsetTable(table, pilr, c)
    modifies pilr`clauses
    ensures ok <==> forall k :: 0 <= k < |fat| ==> Imports(c, fat[k]).Resolution?
    ensures ok ==> |pilr.clauses| == |fat| && forall k :: 0 <= k < |fat| ==>
              ClauseBelongs(pilr.View(), pilr.clauses[k]) && IndexedClause(pilr.View(), pilr.clauses[k]) == Imports(c, fat[k]).clause
  {
    hide ILRewriter.Linked, ILRewriter.View, ILRewriter.At, OffsetTable, Imports, ClauseBelongs, IndexedClause, NodeClause;
    TableLength(table, pilr, c);
    var clauses: seq<Clause<ILInstr>> := [];
    for iEH := 0 to |fat|
      invariant |clauses| == iEH
      invariant forall k :: 0 <= k < iEH ==> Imports(c, fat[k]).Resolution?
      invariant forall k :: 0 <= k < iEH ==>
                  var y := Imports(c, fat[k]).clause; RefersInto(c, y) && clauses[k] == NodeClause(pilr, y)
    {
      var clause;
      ok, clause := ImportClause(pilr, table, fat[iEH], c);
      if !ok {
        return;
      }
      clauses := clauses + [clause];
    }
    ok := true;
    pilr.clauses := clauses;
    forall k | 0 <= k < |fat|
      ensures ClauseBelongs(pilr.View(), pilr.clauses[k]) && IndexedClause(pilr.View(), pilr.clauses[k]) == Imports(c, fat[k]).clause
    {
      ClauseFrom(pilr, Imports(c, fat[k]).clause);
    }
  }

  method ExportClause(pilr: ILRewriter, clause: Clause<ILInstr>, ghost c: Code) returns (f: FatClause)
    requires pilr.Linked() && Laid(pilr, c, |c|) && pilr.head.offset == CodeSize(c)
    requires ClauseBelongs(pilr.View(), clause) && RefersInto(c, IndexedClause(pilr.View(), clause))
    ensures f == Exports(c, IndexedClause(pilr.View(), clause))
  {
    hide ILRewriter.Linked, ILRewriter.View, ILRewriter.At, Laid, IndexedClause, ClauseBelongs, Off;
    ghost var y := IndexedClause(pilr.View(), clause);
    assert |pilr.nodes| == |c| by { LaidLength(pilr, c); }
    ClauseAt(pilr, clause);
    OffsetOf(pilr, c, y.tryBegin);
    OffsetOf(pilr, c, y.tryEnd);
    OffsetOf(pilr, c, y.handlerBegin);
    OffsetOf(pilr, c, After(c, y.handlerEnd));
    NextOf(pilr, y.handlerEnd);
    if y.kind.Filtered? { OffsetOf(pilr, c, y.kind.filter); }
    var handlerBehind := clause.handlerEnd.next;
    f := FatClause(
      clause.flags,
      clause.tryBegin.offset, (clause.tryEnd.offset - clause.tryBegin.offset) % TWO_TO_THE_32,
      clause.handlerBegin.offset, (handlerBehind.offset - clause.handlerBegin.offset) % TWO_TO_THE_32,
      match clause.kind case Typed(token) => token case Filtered(n) => n.offset);
  }

  lemma LaidLength(pilr: ILRewriter, c: Code)
    requires Laid(pilr, c, |c|)
    ensures |pilr.nodes| == |c|
  {
  }

  /** Writes the exception clauses, once every node knows its offset. */
  method ExportEH(pilr: ILRewriter, ghost c: Code) returns (fat: seq<FatClause>)
    requires pilr.Linked() && Laid(pilr, c, |c|) && pilr.head.offset == CodeSize(c)
    requires forall x :: x in pilr.clauses ==> ClauseBelongs(pilr.View(), x) && RefersInto(c, IndexedClause(pilr.View(), x))
    ensures |fat| == |pilr.clauses|
    ensures forall k :: 0 <= k < |fat| ==> fat[k] == Exports(c, IndexedClause(pilr.View(), pilr.clauses[k]))
  {
    hide ILRewriter.Linked, ILRewriter.View, Laid, IndexedClause, ClauseBelongs, Exports, RefersInto;
    fat := [];
    for iEH := 0 to |pilr.clauses|
      invariant |fat| == iEH
      invariant forall k :: 0 <= k < iEH ==>
                  var y := IndexedClause(pilr.View(), pilr.clauses[k]); RefersInto(c, y) && fat[k] == Exports(c, y)
    {
      var f := ExportClause(pilr, pilr.clauses[iEH], c);
      fat := fat + [f];
    }
  }
}
