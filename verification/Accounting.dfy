/** How many probes a method body gets, and what they cost. */
module Accounting {
  import opened Opcodes
  import opened Listings
  import opened MethodBody

  /** The number of probes planned for the instruction at `k` itself. */
  function ProbesFor<N(==)>(l: Listing<N>, k: nat): nat
    requires WellFormed(l)
  {
    if OpAt(l, k) == CEE_TAILCALL then 2 else if IsProbed(l, k) then 1 else 0
  }

  function ProbesUpTo<N(==)>(l: Listing<N>, n: nat): nat
    requires WellFormed(l)
  {
    if n == 0 then 0 else ProbesUpTo(l, n - 1) + ProbesFor(l, n - 1)
  }

  /** The offset of the instruction at `x` is reported in any case. */
  predicate HasProbe<N(==)>(l: Listing<N>, x: nat)
    requires WellFormed(l)
  {
    AfterTail(l, x) || HandlerStarts(l, x) || (IsProbed(l, x) && Site(l, x) == x)
  }

  /** The number of probes for falling through into branch targets, behind the first `n` instructions. */
  ghost function FallsUpTo<N>(l: Listing<N>, n: nat): nat
    requires WellFormed(l)
  {
    if n == 0 then 0 else FallsUpTo(l, n - 1) + if IsBranchTarget(l, n) && !HasProbe(l, n - 1) then 1 else 0
  }

  /** All probes but the one at the start: those of the instructions, of the handlers, and of falling through. */
  ghost function ProbeCount<N>(l: Listing<N>): nat
    requires WellFormed(l)
  {
    ProbesUpTo(l, |l.order|) + |l.clauses| + FallsUpTo(l, |l.order|)
  }

  /** What the instructions that handlers begin with push. */
  function HandlerPushes<N(==)>(l: Listing<N>, n: nat): nat
    requires WellFormed(l)
  {
    if n == 0 then 0 else HandlerPushes(l, n - 1) + if HandlerStarts(l, n - 1) then Pushes(OpAt(l, n - 1)) else 0
  }

  function TailsUpTo<N(==)>(l: Listing<N>, n: nat): nat
    requires WellFormed(l)
  {
    if n == 0 then 0 else TailsUpTo(l, n - 1) + if OpAt(l, n - 1) == CEE_TAILCALL then 1 else 0
  }

  /** By how much rewriting raises the maximal stack depth: four slots for every probe, five for the one at the start, and
      the instructions that are copied behind a handler's probe count twice. */
  ghost function ExtraDepth<N>(l: Listing<N>): nat
    requires WellFormed(l)
  {
    4 * ProbeCount(l) + HandlerPushes(l, |l.order|) + 5
  }

  /** The number of instructions of the rewritten method. */
  ghost function NodeCount<N>(l: Listing<N>): nat
    requires WellFormed(l)
  {
    |l.order| + TailsUpTo(l, |l.order|) + 5 * ProbeCount(l) + 5
  }

  // What moving instructions behind their probes costs

  function MovedPushes<N(==)>(l: Listing<N>, moved: set<nat>, n: nat): nat
    requires WellFormed(l)
  {
    if n == 0 then 0 else MovedPushes(l, moved, n - 1) + if n - 1 in moved then Pushes(OpAt(l, n - 1)) else 0
  }

  lemma {:induction false} MovedNone<N>(l: Listing<N>, n: nat)
    requires WellFormed(l)
    ensures MovedPushes(l, {}, n) == 0
  {
    if n > 0 { MovedNone(l, n - 1); }
  }

  lemma {:induction false} MovedMore<N>(l: Listing<N>, moved: set<nat>, k: nat, n: nat)
    requires WellFormed(l)
    ensures MovedPushes(l, moved + {k}, n) == MovedPushes(l, moved, n) + if k < n && k !in moved then Pushes(OpAt(l, k)) else 0
  {
    if n > 0 { MovedMore(l, moved, k, n - 1); }
  }

  /** Only handlers make a difference. */
  lemma {:induction false} MovedByHandlers<N>(l: Listing<N>, moved: set<nat>, n: nat)
    requires WellFormed(l)
    requires forall k: nat :: k < n && HandlerStarts(l, k) ==> k in moved
    requires forall k: nat :: k < n && k in moved && !HandlerStarts(l, k) ==> Pushes(OpAt(l, k)) == 0
    ensures MovedPushes(l, moved, n) == HandlerPushes(l, n)
  {
    hide HandlerStarts;
    if n > 0 { MovedByHandlers(l, moved, n - 1); }
  }

  // Counting the probes for falling through

  ghost function FallOffsets<N>(l: Listing<N>, n: nat): set<int>
    requires WellFormed(l) && n <= |l.order|
  {
    if n == 0 then {} else FallOffsets(l, n - 1) + if IsBranchTarget(l, n) then {OffsetAt(l, n - 1)} else {}
  }

  lemma {:induction false} FallOffset<N>(l: Listing<N>, n: nat, o: int)
    requires WellFormed(l) && n <= |l.order|
    ensures o in FallOffsets(l, n) <==> exists x: nat :: IsFallOffset(l, x, n, o)
  {
    hide IsBranchTarget, OffsetAt;
    if n > 0 {
      FallOffset(l, n - 1, o);
      if o in FallOffsets(l, n - 1) {
        var x: nat :| IsFallOffset(l, x, n - 1, o);
        assert IsFallOffset(l, x, n, o);
      } else if o in FallOffsets(l, n) {
        var x: nat := n - 1;
        assert IsFallOffset(l, x, n, o);
      }
      if x: nat :| IsFallOffset(l, x, n, o) && x != n - 1 { assert IsFallOffset(l, x, n - 1, o); }
    }
  }

  /** Falling through from the instruction at `x`, one of the first `n`, leads into a branch target. */
  ghost predicate IsFallOffset<N>(l: Listing<N>, x: nat, n: nat, o: int)
    requires WellFormed(l)
  {
    x < n && x < |l.order| && IsBranchTarget(l, x + 1) && o == OffsetAt(l, x)
  }

  lemma OffsetIsNew<N>(l: Listing<N>, x: nat)
    requires ValidBody(l) && x < |l.order|
    ensures OffsetAt(l, x) !in FallOffsets(l, x)
  {
    hide IsBranchTarget, OffsetAt, ValidAt, ValidClause;
    FallOffset(l, x, OffsetAt(l, x));
    if y: nat :| IsFallOffset(l, y, x, OffsetAt(l, x)) { OffsetsDiffer(l, y, x); }
  }

  /** In front of a branch target, exactly the offsets of instructions that have a probe are covered. */
  ghost predicate CoveredRight<N>(l: Listing<N>, covered: set<int>, x: nat)
    requires WellFormed(l)
  {
    x < |l.order| && IsBranchTarget(l, x + 1) ==> (OffsetAt(l, x) in covered <==> HasProbe(l, x))
  }

  /** Every offset that was not covered before stands for one probe. */
  lemma {:induction false} FallCount<N>(l: Listing<N>, covered: set<int>, n: nat)
    requires ValidBody(l) && n <= |l.order|
    requires forall x: nat :: x < n ==> CoveredRight(l, covered, x)
    ensures |covered + FallOffsets(l, n)| == |covered| + FallsUpTo(l, n)
  {
    hide IsBranchTarget, OffsetAt, HasProbe, ValidBody;
    assert WellFormed(l) by { BodyIsWellFormed(l); }
    if n == 0 {
      assert covered + {} == covered;
    } else {
      var x: nat := n - 1;
      FallCount(l, covered, x);
      assert CoveredRight(l, covered, x);
      OffsetIsNew(l, x);
      OneMore(covered, FallOffsets(l, x), OffsetAt(l, x));
    }
  }

  lemma OneMore(a: set<int>, b: set<int>, x: int)
    requires x !in b
    ensures |a + (b + {x})| == |a + b| + (if x in a then 0 else 1) && a + (b + {}) == a + b
  {
    assert a + (b + {x}) == (a + b) + {x};
    if x in a { assert (a + b) + {x} == a + b; }
    assert b + {} == b;
  }

  lemma BodyIsWellFormed<N>(l: Listing<N>)
    requires ValidBody(l)
    ensures WellFormed(l)
  {
  }
}
