/** Machines for a method and for its rewritten form that give the instructions the same meaning, although these have
    other numbers there. */
module Correspondence {
  import opened Opcodes
  import opened Listings
  import opened Machine
  import opened MethodBody
  import opened Codec
  import opened Importing
  import opened ExceptionClauses
  import opened Numbering
  import opened NumberedRuns

  // A machine for the nodes of a list

  function NumberedInstr<N(==)>(l: Listing<N>, x: Instr<N>): Instr<nat> {
    Instr(x.op, match x.arg case Bits(v) => Bits(v) case Target(n) => Target(Place(l, n)))
  }

  function NumberedFetched<N(==)>(l: Listing<N>, f: Fetched<N>): Fetched<nat> {
    Fetched(NumberedInstr(l, f.instr), seq(|f.arms|, j requires 0 <= j < |f.arms| => Place(l, f.arms[j])))
  }

  function NamedCore<N, R>(core: Core<nat, R>): Core<N, R> {
    Core(core.stack, [], core.rest)
  }

  function NamedOutcome<N, R>(l: Listing<N>, o: Outcome<nat, R>): Outcome<N, R> {
    match o
    case Fall(core) => Fall(NamedCore(core))
    case Halt(core) => Halt(NamedCore(core))
    case Goto(k, core) => Goto(if k < |l.order| then l.order[k] else l.end, NamedCore(core))
  }

  /** The machine that does with the nodes of `l` what `m0` does with their numbers. */
  ghost function OnNodes<N, R>(l: Listing<N>, m0: Machine<nat, R>): Machine<N, R> {
    Machine(m0.probes, set k: nat | k < |l.order| && k in m0.entries :: l.order[k],
            (f, r, core) => NamedOutcome(l, m0.sem(NumberedFetched(l, f), r, Unnamed(core))))
  }

  lemma Accepted<N, R>(l: Listing<N>, m0: Machine<nat, R>, k: nat)
    requires WellFormed(l)
    ensures var n := if k < |l.order| then l.order[k] else l.end;
            && (n in OnNodes(l, m0).entries && n in l.order <==> k in m0.entries && k < |l.order|)
            && (n in OnNodes(l, m0).entries ==> n in l.order) && (k < |l.order| ==> Place(l, n) == k)
  {
    if k < |l.order| {
      PosUnique(l.order, k);
      if l.order[k] in OnNodes(l, m0).entries {
        var j: nat :| j < |l.order| && j in m0.entries && l.order[j] == l.order[k];
        PosUnique(l.order, j);
      }
    }
  }

  lemma BackUnnamed<N, R>(core: Core<nat, R>)
    requires BitsOnly(core)
    ensures var c: Core<N, R> := Back(core); Unnamed(c) == core
  {
    var c: Core<N, R> := Back(core);
    forall i | 0 <= i < |core.pending| ensures Unnamed(c).pending[i] == core.pending[i] { }
  }

  /** The numbered form of a list runs on `m0` like the list on the machine for its nodes. */
  lemma NodesAlike<N, R(!new)>(l: Listing<N>, d: Listing<nat>, m0: Machine<nat, R>)
    requires NumberedAs(l, d) && Renders(l, d)
    requires forall p :: 0 <= p < |l.order| && IsPrefix(l.code[l.order[p]].op) ==> l.code[l.order[p]].arg.Bits?
    ensures Alike(OnNodes(l, m0), l, m0, d)
  {
    hide NumberedAs, Renders, RegionsAt, Fetch, Place, AlikeOutcome;
    RendersWell(l, d);
    NumberedWellFormed(l, d);
    var m := OnNodes(l, m0);
    forall p: nat, core: Core<nat, R> | p < |l.order| && BitsOnly(core) ensures AlikeAt(m, l, m0, d, p, core) {
      ExactFetched(l, d, p);
      RenderedRegions(l, d, p);
      BackUnnamed<N, R>(core);
      OutcomeNamed(l, m0, m0.sem(Fetch(d, p), RegionsAt(d, p), core));
    }
  }

  lemma ExactFetched<N>(l: Listing<N>, d: Listing<nat>, p: nat)
    requires NumberedAs(l, d) && Renders(l, d) && p < |l.order|
    ensures WellFormed(l) && WellFormed(d) && p < |d.order| && Fetch(d, p) == NumberedFetched(l, Fetch(l, p))
  {
    hide Indexed, Place, RendersInstr, Arms;
    SameInstr(l, d, p);
    SameFetched(l, d, p);
  }

  lemma OutcomeNamed<N, R>(l: Listing<N>, m0: Machine<nat, R>, o: Outcome<nat, R>)
    requires WellFormed(l)
    ensures AlikeOutcome(OnNodes(l, m0), l, m0, NamedOutcome(l, o), o)
  {
    hide OnNodes, Place;
    if o.Goto? { Accepted(l, m0, o.node); }
  }

  // A machine for the rewritten method

  /** `g` is `f` with the instruction `k` at `at[k]`, and perhaps a long branch for a short one. */
  predicate MovedFetched(at: seq<nat>, f: Fetched<nat>, g: Fetched<nat>) {
    && (g.instr.op == f.instr.op || (IsShortBranch(f.instr.op) && g.instr.op == Widen(f.instr.op)))
    && (match f.instr.arg
        case Bits(v) => g.instr.arg == Bits(v)
        case Target(k) => k < |at| && g.instr.arg == Target(at[k]))
    && |g.arms| == |f.arms| && (forall j :: 0 <= j < |f.arms| ==> f.arms[j] < |at| && g.arms[j] == at[f.arms[j]])
  }

  /** Control goes to corresponding instructions, or leaves both methods. */
  predicate MovedOutcome<R(==)>(m0: Machine<nat, R>, m2: Machine<nat, R>, at: seq<nat>, o: Outcome<nat, R>, o': Outcome<nat, R>) {
    match o
    case Fall(core) => o'.Fall? && SameState(core, o'.core)
    case Halt(core) => o'.Halt? && SameState(core, o'.core)
    case Goto(k, core) =>
      && o'.Goto? && SameState(core, o'.core)
      && (k in m0.entries && k < |at| <==> o'.node in m2.entries)
      && (k in m0.entries && k < |at| ==> o'.node == at[k])
  }

  /** The machines give the same meaning to an instruction of the method and to its counterpart in the rewritten method,
      where instruction `k` has become `at[k]`: neither the numbers of instructions nor the length of branches matter. */
  ghost predicate Corresponds<R(!new)>(m0: Machine<nat, R>, m2: Machine<nat, R>, at: seq<nat>) {
    && m2.probes == m0.probes
    && (forall f, g, r, core :: MovedFetched(at, f, g) ==> MovedOutcome(m0, m2, at, m0.sem(f, r, core), m2.sem(g, r, core)))
  }

  // Every meaning has a counterpart

  function Longer(f: Fetched<nat>): Fetched<nat> {
    Fetched(Instr(Widen(f.instr.op), f.instr.arg), f.arms)
  }

  /** The length of branches makes no difference. */
  ghost predicate LengthBlind<R(!new)>(m0: Machine<nat, R>) {
    forall f, r, core :: m0.sem(Longer(f), r, core) == m0.sem(f, r, core)
  }

  ghost function Number(at: seq<nat>, p: nat): nat {
    if p in at then Pos(at, p) else |at|
  }

  ghost function BackFetched(at: seq<nat>, g: Fetched<nat>): Fetched<nat> {
    Fetched(Instr(Widen(g.instr.op), match g.instr.arg case Bits(v) => Bits(v) case Target(p) => Target(Number(at, p))),
            seq(|g.arms|, j requires 0 <= j < |g.arms| => Number(at, g.arms[j])))
  }

  lemma {:induction false} Bounded(s: set<nat>) returns (b: nat)
    ensures forall x :: x in s ==> x < b
    decreases |s|
  {
    b := 0;
    if s != {} {
      var x :| x in s;
      b := Bounded(s - {x});
      if b <= x { b := x + 1; }
      assert forall y :: y in s ==> y == x || y in s - {x};
    }
  }

  /** A number that is not in the set. */
  ghost function Outside(s: set<nat>): (n: nat)
    ensures n !in s
  {
    assert exists n: nat :: n !in s by { var b := Bounded(s); assert b !in s; }
    var n: nat :| n !in s;
    n
  }

  ghost function Entries(m0: set<nat>, at: seq<nat>): set<nat> {
    set k: nat | k < |at| && k in m0 :: at[k]
  }

  ghost function ForthOutcome<R>(m0: Machine<nat, R>, at: seq<nat>, o: Outcome<nat, R>): Outcome<nat, R> {
    match o
    case Fall(core) => o
    case Halt(core) => o
    case Goto(k, core) => Goto(if k < |at| && k in m0.entries then at[k] else Outside(Entries(m0.entries, at)), core)
  }

  /** The machine that does with the instructions at `at` what `m0` does with those of the method. */
  ghost function Counterpart<R>(m0: Machine<nat, R>, at: seq<nat>): Machine<nat, R> {
    Machine(m0.probes, Entries(m0.entries, at), (g, r, core) => ForthOutcome(m0, at, m0.sem(BackFetched(at, g), r, core)))
  }

  /** Whatever the instructions mean, as long as the length of branches is no part of it, there is a machine that gives the
      rewritten method the same meaning. */
  lemma CounterpartCorresponds<R(!new)>(m0: Machine<nat, R>, at: seq<nat>)
    requires Distinct(at) && LengthBlind(m0)
    ensures Corresponds(m0, Counterpart(m0, at), at)
  {
    hide Pos;
    var m2 := Counterpart(m0, at);
    forall f, g, r, core | MovedFetched(at, f, g) ensures MovedOutcome(m0, m2, at, m0.sem(f, r, core), m2.sem(g, r, core)) {
      BackIsLong(at, f, g);
      assert m0.sem(Longer(f), r, core) == m0.sem(f, r, core);
      OutcomeForth(m0, at, m0.sem(f, r, core));
    }
  }

  lemma BackIsLong(at: seq<nat>, f: Fetched<nat>, g: Fetched<nat>)
    requires Distinct(at) && MovedFetched(at, f, g)
    ensures BackFetched(at, g) == Longer(f)
  {
    hide Distinct, Pos;
    if f.instr.arg.Target? { PosUnique(at, f.instr.arg.node); }
    forall j | 0 <= j < |f.arms| ensures Number(at, g.arms[j]) == f.arms[j] { PosUnique(at, f.arms[j]); }
  }

  lemma OutcomeForth<R>(m0: Machine<nat, R>, at: seq<nat>, o: Outcome<nat, R>)
    ensures MovedOutcome(m0, Counterpart(m0, at), at, o, ForthOutcome(m0, at, o))
  {
  }

  /** The rewritten list refers to the starts of blocks only: instruction `k` of `l0` is at `at[k]` in `l`. */
  ghost predicate RefersToStarts<N>(l0: Listing<N>, l: Listing<N>, at: seq<nat>) {
    && WellFormed(l0) && WellFormed(l) && |at| == |l0.order|
    && (forall k :: 0 <= k < |at| ==> at[k] < |l.order| && l.order[at[k]] == l0.order[k])
    && (forall p :: 0 <= p < |l.order| && l.code[l.order[p]].arg.Target? && !IsBare(l.code[l.order[p]].op) ==>
          l.code[l.order[p]].arg.node in l0.order)
  }

  lemma StartPlaces<N>(l0: Listing<N>, l: Listing<N>, at: seq<nat>, n: N)
    requires RefersToStarts(l0, l, at) && n in l0.order
    ensures Place(l0, n) < |at| && n in l.order && Place(l, n) == at[Place(l0, n)]
  {
    var k := Pos(l0.order, n);
    assert l.order[at[k]] == l0.order[k] == n;
    PosUnique(l.order, at[k]);
  }

  lemma FetchedMoves<N>(l0: Listing<N>, l: Listing<N>, d: Listing<nat>, at: seq<nat>, p: nat)
    requires RefersToStarts(l0, l, at) && Renders(l, d) && p < |l.order| && !IsBare(l.code[l.order[p]].op)
    ensures MovedFetched(at, NumberedFetched(l0, Fetch(l, p)), Fetch(d, p))
  {
    hide Place;
    SameFetched(l, d, p);
    var f, g := Fetch(l, p), Fetch(d, p);
    if f.instr.arg.Target? { StartPlaces(l0, l, at, f.instr.arg.node); }
    forall j | 0 <= j < |f.arms| ensures Place(l0, f.arms[j]) < |at| && g.arms[j] == at[Place(l0, f.arms[j])] {
      assert f.arms[j] == l.code[l.order[p + 1 + j]].arg.node && l.code[l.order[p + 1 + j]].op == CEE_SWITCH_ARG;
      StartPlaces(l0, l, at, f.arms[j]);
    }
  }

  lemma OutcomeMoves<N, R>(l0: Listing<N>, l: Listing<N>, m0: Machine<nat, R>, m2: Machine<nat, R>, at: seq<nat>,
                           o: Outcome<nat, R>, o': Outcome<nat, R>)
    requires RefersToStarts(l0, l, at) && MovedOutcome(m0, m2, at, o, o')
    ensures AlikeOutcome(OnNodes(l0, m0), l, m2, NamedOutcome(l0, o), o')
  {
    hide OnNodes, Place;
    if o.Goto? {
      Accepted(l0, m0, o.node);
      if o.node < |l0.order| {
        assert l.order[at[o.node]] == l0.order[o.node];
        StartPlaces(l0, l, at, l0.order[o.node]);
      }
    }
  }

  /** The rendered form of a rewritten list runs on the corresponding machine like the list on that for the nodes of the
      original list. */
  lemma MovedAlike<N, R(!new)>(l0: Listing<N>, l: Listing<N>, d: Listing<nat>, at: seq<nat>, m0: Machine<nat, R>, m2: Machine<nat, R>)
    requires RefersToStarts(l0, l, at) && Renders(l, d) && Corresponds(m0, m2, at)
    requires forall p :: 0 <= p < |l.order| && IsPrefix(l.code[l.order[p]].op) ==> l.code[l.order[p]].arg.Bits?
    ensures Alike(OnNodes(l0, m0), l, m2, d)
  {
    hide RegionsAt, Fetch, Place;
    var m := OnNodes(l0, m0);
    forall p: nat, core: Core<nat, R> | p < |l.order| && BitsOnly(core) ensures AlikeAt(m, l, m2, d, p, core) {
      if !IsPlain(l.code[l.order[p]].op) {
        FetchedMoves(l0, l, d, at, p);
        RenderedRegions(l, d, p);
        BackUnnamed<N, R>(core);
        OutcomeMoves(l0, l, m0, m2, at, m0.sem(NumberedFetched(l0, Fetch(l, p)), RegionsAt(l, p), core),
                     m2.sem(Fetch(d, p), RegionsAt(l, p), core));
      }
    }
  }
}
