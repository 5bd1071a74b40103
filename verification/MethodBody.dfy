/** Method bodies as the runtime hands them to the rewriter, and which of their instructions a probe must report. */
module MethodBody {
  import opened Opcodes
  import opened Listings

  function OpAt<N(==)>(l: Listing<N>, p: int): int
    requires WellFormed(l)
  {
    if 0 <= p < |l.order| then l.code[l.order[p]].op else -1
  }

  /** The byte offset of an instruction. */
  function OffsetAt<N(==)>(l: Listing<N>, p: nat): (o: nat)
    requires WellFormed(l) && p <= |l.order|
  {
    if p == 0 then 0 else OffsetAt(l, p - 1) + Size(OpAt(l, p - 1))
  }

  lemma {:induction false} OffsetsIncrease<N>(l: Listing<N>, p: nat, q: nat)
    requires ValidBody(l) && p < q <= |l.order|
    ensures OffsetAt(l, p) < OffsetAt(l, q)
    decreases q - p
  {
    assert ValidAt(l, q - 1);
    assert Size(OpAt(l, q - 1)) > 0;
    if p + 1 < q { OffsetsIncrease(l, p, q - 1); }
  }

  lemma OffsetsDiffer<N>(l: Listing<N>, p: nat, q: nat)
    requires ValidBody(l) && p <= |l.order| && q <= |l.order| && OffsetAt(l, p) == OffsetAt(l, q)
    ensures p == q
  {
    if p < q { OffsetsIncrease(l, p, q); }
    if q < p { OffsetsIncrease(l, q, p); }
  }

  /** A branch or an arm of a `switch` at `p` refers to the instruction at `t`. */
  predicate Refers<N(==)>(l: Listing<N>, p: nat, t: nat)
    requires WellFormed(l)
  {
    && p < |l.order| && t < |l.order| && HasTarget(OpAt(l, p))
    && l.code[l.order[p]].arg == Target(l.order[t])
  }

  /** Some branch leads to the instruction at `t`. */
  ghost predicate IsBranchTarget<N>(l: Listing<N>, t: nat)
    requires WellFormed(l)
  {
    exists q: nat :: Refers(l, q, t)
  }

  /** Instructions that are never put under a prefix. */
  predicate NeverPrefixed(op: int) {
    || OpcodeIsBranch(op) || op == CEE_RET || op == CEE_ENDFINALLY || op == CEE_ENDFILTER || op == CEE_THROW || op == CEE_RETHROW
    || op == CEE_TAILCALL
  }

  /** The instruction at `p` is the `tail.` prefix, the call or the return of a tail call. */
  predicate InTailCall<N(==)>(l: Listing<N>, p: int)
    requires WellFormed(l)
  {
    OpAt(l, p) == CEE_TAILCALL || OpAt(l, p - 1) == CEE_TAILCALL || OpAt(l, p - 2) == CEE_TAILCALL
  }

  /** The instruction at `p` is the call or the return of a tail call. */
  predicate AfterTail<N(==)>(l: Listing<N>, p: int)
    requires WellFormed(l)
  {
    OpAt(l, p - 1) == CEE_TAILCALL || OpAt(l, p - 2) == CEE_TAILCALL
  }

  /** An exception handler begins with the instruction at `p`. */
  predicate HandlerStarts<N(==)>(l: Listing<N>, p: nat)
    requires WellFormed(l)
  {
    p < |l.order| && exists i :: 0 <= i < |l.clauses| && l.clauses[i].handlerBegin == l.order[p]
  }

  /** The instruction at `p` ends a basic block, or writes a static field, outside tail calls: it gets a probe. */
  predicate IsProbed<N(==)>(l: Listing<N>, p: int)
    requires WellFormed(l)
  {
    var op := OpAt(l, p);
    || OpcodeIsBranch(op) || op == CEE_STSFLD || op == CEE_ENDFINALLY || op == CEE_ENDFILTER || op == CEE_THROW || op == CEE_RETHROW
    || ((IsCall(op) || op == CEE_RET) && !InTailCall(l, p))
  }

  /** Where that probe goes: in front of the prefix, if a `stsfld` has one. */
  function Site<N(==)>(l: Listing<N>, p: nat): nat
    requires WellFormed(l)
  {
    if OpAt(l, p) == CEE_STSFLD && IsPrefix(OpAt(l, p - 1)) then p - 1 else p
  }

  /** The instruction at `p` is a `tail.` prefix, or the place for the probe of some instruction. */
  predicate IsSite<N(==)>(l: Listing<N>, p: nat)
    requires WellFormed(l)
  {
    OpAt(l, p) == CEE_TAILCALL || (IsProbed(l, p) && Site(l, p) == p) || (IsProbed(l, p + 1) && Site(l, p + 1) == p)
  }

  /** No probe is planned for the call and the return of a tail call. */
  lemma SiteNotAfterTail<N>(l: Listing<N>, p: nat)
    requires ValidBody(l) && p < |l.order| && IsSite(l, p)
    ensures !AfterTail(l, p)
  {
    hide Distinct, ValidClause;
    assert ValidAt(l, p);
    if p >= 1 { assert ValidAt(l, p - 1); }
    if p >= 2 { assert ValidAt(l, p - 2); }
  }

  /** Where branches and handlers may lead: neither to an arm of a `switch` nor past a prefix. */
  predicate Enterable<N(==)>(l: Listing<N>, p: nat)
    requires WellFormed(l)
  {
    p < |l.order| && OpAt(l, p) != CEE_SWITCH_ARG && !IsPrefix(OpAt(l, p - 1))
  }

  /** What the rewriter relies on: the code is that of a valid method body.  Branches and handlers lead to instructions, not
      past prefixes; jump tables are complete; instructions that end blocks have no prefix; a `stsfld` has at most one; and a
      `tail.` prefix stands in front of a call and a return, and does not end a handler. */
  ghost predicate ValidBody<N>(l: Listing<N>) {
    && WellFormed(l)
    && (forall p :: 0 <= p < |l.order| ==> ValidAt(l, p))
    && (forall i :: 0 <= i < |l.clauses| ==> ValidClause(l, l.clauses[i]))
  }

  ghost predicate ValidAt<N>(l: Listing<N>, p: nat)
    requires WellFormed(l) && p < |l.order|
  {
    var i := l.code[l.order[p]];
    && (IsEncodable(i.op) || i.op == CEE_SWITCH_ARG)
    && (HasTarget(i.op) ==> i.arg.Target? && i.arg.node in l.order && Enterable(l, Pos(l.order, i.arg.node)))
    && (i.op == CEE_SWITCH ==>
          && i.arg.Bits? && i.arg.value >= 0 && IsSwitch(l, p, i.arg.value)
          && OpAt(l, p + i.arg.value + 1) != CEE_SWITCH_ARG)
    && (i.op == CEE_SWITCH_ARG ==> OpAt(l, p - 1) == CEE_SWITCH || OpAt(l, p - 1) == CEE_SWITCH_ARG)
    && (NeverPrefixed(i.op) ==> !IsPrefix(OpAt(l, p - 1)))
    && (i.op == CEE_STSFLD && IsPrefix(OpAt(l, p - 1)) ==> !IsPrefix(OpAt(l, p - 2)))
    && (i.op == CEE_TAILCALL ==> i.arg == Bits(0) && IsCall(OpAt(l, p + 1)) && OpAt(l, p + 2) == CEE_RET)
  }

  ghost predicate ValidClause<N>(l: Listing<N>, c: Clause<N>)
    requires WellFormed(l)
  {
    && c.tryBegin in l.order && (c.tryEnd in l.order || c.tryEnd == l.end)
    && c.handlerBegin in l.order && Enterable(l, Pos(l.order, c.handlerBegin))
    && c.handlerEnd in l.order && l.code[c.handlerEnd].op != CEE_TAILCALL
    && (c.kind.Filtered? ==> c.kind.filter in l.order)
  }
}
