/** The rewriter's instruction list as a value: the nodes in list order and what each of them holds.  Branch
    operands and exception clauses refer to nodes, so that they survive insertions around them. */
module Listings {
  import opened Opcodes

  datatype Operand<N> = Bits(value: int) | Target(node: N)

  /** The operand is a token of 32 bits. */
  predicate IsToken<N>(arg: Operand<N>) {
    arg.Bits? && -0x8000_0000 <= arg.value < 0x8000_0000
  }

  datatype Instr<N> = Instr(op: int, arg: Operand<N>)

  /** An exception clause.  The end of the try block is exclusive, the end of the handler inclusive. */
  datatype Clause<N> = Clause(flags: int, tryBegin: N, tryEnd: N, handlerBegin: N, handlerEnd: N, kind: ClauseKind<N>)

  datatype ClauseKind<N> = Typed(classToken: int) | Filtered(filter: N)

  /** `end` is the list's sentinel: the target of a reference to the end of the code. */
  datatype Listing<N> = Listing(order: seq<N>, end: N, code: map<N, Instr<N>>, clauses: seq<Clause<N>>)

  /** The clauses whose try block, filter or handler contains an instruction. */
  datatype Regions = Regions(tries: set<nat>, filters: set<nat>, handlers: set<nat>)

  predicate Distinct<N(==)>(s: seq<N>) {
    forall i, j :: 0 <= i < j < |s| ==> s[i] != s[j]
  }

  predicate WellFormed<N(==)>(l: Listing<N>) {
    && Distinct(l.order)
    && l.end !in l.order
    && (forall n :: n in l.order ==> n in l.code)
  }

  /** The index of the first occurrence of `n`. */
  function Pos<N(==)>(s: seq<N>, n: N): (p: nat)
    requires n in s
    ensures p < |s| && s[p] == n && n !in s[..p]
  {
    if s[0] == n then 0 else 1 + Pos(s[1..], n)
  }

  lemma PosUnique<N>(s: seq<N>, p: nat)
    requires Distinct(s) && p < |s|
    ensures Pos(s, s[p]) == p
  {
    var q := Pos(s, s[p]);
    assert s[q] == s[p];
  }

  /** The position a clause boundary denotes; a boundary may be the sentinel. */
  function Place<N(==)>(l: Listing<N>, n: N): (p: nat)
    ensures p <= |l.order|
  {
    if n in l.order then Pos(l.order, n) else |l.order|
  }

  predicate InTry<N(==)>(l: Listing<N>, c: Clause<N>, p: nat) {
    Place(l, c.tryBegin) <= p < Place(l, c.tryEnd)
  }

  predicate InHandler<N(==)>(l: Listing<N>, c: Clause<N>, p: nat) {
    Place(l, c.handlerBegin) <= p <= Place(l, c.handlerEnd)
  }

  predicate InFilter<N(==)>(l: Listing<N>, c: Clause<N>, p: nat) {
    c.kind.Filtered? && Place(l, c.kind.filter) <= p < Place(l, c.handlerBegin)
  }

  function RegionsAt<N(==)>(l: Listing<N>, p: nat): Regions {
    Regions(set i: nat | i < |l.clauses| && InTry(l, l.clauses[i], p),
            set i: nat | i < |l.clauses| && InFilter(l, l.clauses[i], p),
            set i: nat | i < |l.clauses| && InHandler(l, l.clauses[i], p))
  }

  /** The node at position `p` holds a `switch` and the next `n` nodes its arms. */
  predicate IsSwitch<N(==)>(l: Listing<N>, p: nat, n: nat)
    requires WellFormed(l) && p < |l.order|
  {
    && l.code[l.order[p]] == Instr(CEE_SWITCH, Bits(n))
    && p + n < |l.order|
    && (forall j :: p < j <= p + n ==> l.code[l.order[j]].op == CEE_SWITCH_ARG && l.code[l.order[j]].arg.Target?)
  }

  /** The targets listed in the jump table of the `switch` at position `p`. */
  function Arms<N(==)>(l: Listing<N>, p: nat): seq<N>
    requires WellFormed(l) && p < |l.order|
  {
    var i := l.code[l.order[p]];
    if i.op == CEE_SWITCH && i.arg.Bits? && i.arg.value >= 0 && IsSwitch(l, p, i.arg.value) then
      seq(i.arg.value, j requires 0 <= j < i.arg.value => l.code[l.order[p + 1 + j]].arg.node)
    else []
  }
}
