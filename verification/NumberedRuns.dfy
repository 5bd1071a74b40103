/** Running a list and running a numbered form of it, in which short branches may have become long. */
module NumberedRuns {
  import opened Opcodes
  import opened Listings
  import opened Machine
  import opened MethodBody
  import opened Codec
  import opened Importing
  import opened ExceptionClauses
  import opened Numbering

  /** Instructions whose meaning does not depend on their operand. */
  predicate IsBare(op: int) {
    op == CEE_NOP || op == CEE_LDC_I4_0
  }

  /** `y` is the instruction `x` with numbers for nodes, and perhaps a long branch for a short one. */
  predicate RendersInstr<N(==)>(l: Listing<N>, x: Instr<N>, y: Instr<nat>) {
    && (y.op == x.op || (IsShortBranch(x.op) && y.op == Widen(x.op)))
    && (IsBare(x.op) ||
          match x.arg
          case Bits(v) => y.arg == Bits(v)
          case Target(n) => n in l.order && y.arg == Target(Place(l, n)))
  }

  ghost predicate Renders<N>(l: Listing<N>, d: Listing<nat>) {
    && WellFormed(l) && WellFormed(d) && |d.order| == |l.order|
    && (forall p :: 0 <= p < |d.order| ==> d.order[p] == p && RendersInstr(l, l.code[l.order[p]], d.code[p]))
    && d.clauses == IndexedClauses(l)
  }

  lemma RenderedPos<N>(l: Listing<N>, d: Listing<nat>, k: nat)
    requires Renders(l, d)
    ensures k in d.order <==> k < |l.order|
    ensures k < |l.order| ==> Pos(d.order, k) == k
    ensures k <= |l.order| ==> Place(d, k) == k
  {
    if k < |d.order| { PosUnique(d.order, k); }
  }

  lemma RenderedRegions<N>(l: Listing<N>, d: Listing<nat>, p: nat)
    requires Renders(l, d)
    ensures RegionsAt(d, p) == RegionsAt(l, p)
  {
    hide Place, RendersInstr;
    forall i | 0 <= i < |l.clauses|
      ensures var x, y := l.clauses[i], d.clauses[i];
              (InTry(d, y, p) <==> InTry(l, x, p)) && (InFilter(d, y, p) <==> InFilter(l, x, p)) && (InHandler(d, y, p) <==> InHandler(l, x, p))
    {
      var x := l.clauses[i];
      assert d.clauses[i] == IndexedClause(l, x);
      RenderedPos(l, d, Place(l, x.tryBegin));
      RenderedPos(l, d, Place(l, x.tryEnd));
      RenderedPos(l, d, Place(l, x.handlerBegin));
      RenderedPos(l, d, Place(l, x.handlerEnd));
      if x.kind.Filtered? { RenderedPos(l, d, Place(l, x.kind.filter)); }
    }
  }

  predicate RendersFetched<N(==)>(l: Listing<N>, f: Fetched<N>, f': Fetched<nat>) {
    && RendersInstr(l, f.instr, f'.instr) && |f'.arms| == |f.arms|
    && (forall j :: 0 <= j < |f.arms| ==> f.arms[j] in l.order && f'.arms[j] == Place(l, f.arms[j]))
  }

  lemma SameArm<N>(l: Listing<N>, d: Listing<nat>, j: nat)
    requires Renders(l, d) && j < |l.order|
    ensures var x, y := l.code[l.order[j]], d.code[d.order[j]];
            && (x.op == CEE_SWITCH_ARG <==> y.op == CEE_SWITCH_ARG)
            && (x.op == CEE_SWITCH_ARG ==> (x.arg.Target? <==> y.arg.Target?))
            && (x.op == CEE_SWITCH_ARG && x.arg.Target? ==> x.arg.node in l.order && y.arg.node == Place(l, x.arg.node))
  {
    hide Place;
    assert RendersInstr(l, l.code[l.order[j]], d.code[j]);
  }

  lemma SameSwitch<N>(l: Listing<N>, d: Listing<nat>, p: nat, n: nat)
    requires Renders(l, d) && p < |l.order| && l.code[l.order[p]].op == CEE_SWITCH && l.code[l.order[p]].arg == Bits(n)
    ensures d.code[d.order[p]] == Instr(CEE_SWITCH, Bits(n)) && (IsSwitch(l, p, n) <==> IsSwitch(d, p, n))
  {
    hide Place;
    assert RendersInstr(l, l.code[l.order[p]], d.code[p]);
    hide RendersInstr, WellFormed;
    forall j | p < j <= p + n && j < |l.order|
      ensures var x, y := l.code[l.order[j]], d.code[d.order[j]];
              x.op == CEE_SWITCH_ARG && x.arg.Target? <==> y.op == CEE_SWITCH_ARG && y.arg.Target?
    {
      SameArm(l, d, j);
    }
  }

  lemma SameFetched<N>(l: Listing<N>, d: Listing<nat>, p: nat)
    requires Renders(l, d) && p < |l.order|
    ensures RendersFetched(l, Fetch(l, p), Fetch(d, p))
  {
    hide Place, IsSwitch;
    var x, y := l.code[l.order[p]], d.code[d.order[p]];
    assert RendersInstr(l, x, y);
    if x.op == CEE_SWITCH && x.arg.Bits? && x.arg.value >= 0 {
      var n := x.arg.value;
      SameSwitch(l, d, p, n);
      if IsSwitch(l, p, n) { SameArms(l, d, p, n); }
    }
  }

  lemma SameArms<N>(l: Listing<N>, d: Listing<nat>, p: nat, n: nat)
    requires Renders(l, d) && p < |l.order| && IsSwitch(l, p, n) && IsSwitch(d, p, n)
    ensures |Arms(l, p)| == |Arms(d, p)| == n
    ensures forall j :: 0 <= j < n ==> Arms(l, p)[j] in l.order && Arms(d, p)[j] == Place(l, Arms(l, p)[j])
  {
    hide Place, RendersInstr;
    forall j | 0 <= j < n ensures Arms(l, p)[j] in l.order && Arms(d, p)[j] == Place(l, Arms(l, p)[j]) { SameArm(l, d, p + 1 + j); }
  }

  // States without nodes

  predicate BitsOnly<N, R>(core: Core<N, R>) {
    forall i :: 0 <= i < |core.pending| ==> core.pending[i].arg.Bits?
  }

  function UnnamedInstr<N>(x: Instr<N>): Instr<nat> {
    Instr(x.op, Bits(if x.arg.Bits? then x.arg.value else 0))
  }

  /** The state with nothing but bits in the prefixes that wait. */
  function Unnamed<N, R>(core: Core<N, R>): Core<nat, R> {
    Core(core.stack, seq(|core.pending|, i requires 0 <= i < |core.pending| => UnnamedInstr(core.pending[i])), core.rest)
  }

  /** The same state for a list with other nodes. */
  function Back<N, R>(core: Core<nat, R>): Core<N, R> {
    Core(core.stack, seq(|core.pending|, i requires 0 <= i < |core.pending| =>
           Instr(core.pending[i].op, Bits(if core.pending[i].arg.Bits? then core.pending[i].arg.value else 0))), core.rest)
  }

  lemma UnnamedBack<N, R>(core: Core<N, R>)
    requires BitsOnly(core)
    ensures Back(Unnamed(core)) == core
  {
  }

  function UnnamedConfig<N, R>(c: Config<N, R>): Config<nat, R> {
    match c
    case Running(pc, core, log) => Running(pc, Unnamed(core), log)
    case Stopped(core, log) => Stopped(Unnamed(core), log)
  }

  predicate SameState<N, M, R(==)>(a: Core<N, R>, b: Core<M, R>) {
    a.stack == b.stack && a.rest == b.rest
  }

  /** Control goes to the same place, or leaves the method in both. */
  predicate AlikeOutcome<N(==), R(==)>(m: Machine<N, R>, l: Listing<N>, md: Machine<nat, R>, o: Outcome<N, R>, o': Outcome<nat, R>) {
    match o
    case Fall(core) => o'.Fall? && SameState(core, o'.core)
    case Halt(core) => o'.Halt? && SameState(core, o'.core)
    case Goto(n, core) =>
      && o'.Goto? && SameState(core, o'.core)
      && (n in m.entries && n in l.order <==> o'.node in md.entries && o'.node < |l.order|)
      && (n in m.entries && n in l.order ==> o'.node == Place(l, n))
  }

  ghost predicate AlikeAt<N, R>(m: Machine<N, R>, l: Listing<N>, md: Machine<nat, R>, d: Listing<nat>, p: nat, core: Core<nat, R>)
    requires WellFormed(l) && WellFormed(d) && p < |l.order| == |d.order|
  {
    IsPlain(l.code[l.order[p]].op) || AlikeOutcome(m, l, md, m.sem(Fetch(l, p), RegionsAt(l, p), Back(core)), md.sem(Fetch(d, p), RegionsAt(d, p), core))
  }

  /** Both machines give the instructions the same meaning. */
  ghost predicate Alike<N, R(!new)>(m: Machine<N, R>, l: Listing<N>, md: Machine<nat, R>, d: Listing<nat>) {
    && Renders(l, d) && md.probes == m.probes
    && (forall p :: 0 <= p < |l.order| && IsPrefix(l.code[l.order[p]].op) ==> l.code[l.order[p]].arg.Bits?)
    && (forall p: nat, core: Core<nat, R> :: p < |l.order| && BitsOnly(core) ==> AlikeAt(m, l, md, d, p, core))
  }

  lemma PerformAlike<N, R(!new)>(m: Machine<N, R>, l: Listing<N>, md: Machine<nat, R>, d: Listing<nat>, p: nat, core: Core<N, R>)
    requires Alike(m, l, md, d) && p < |l.order| && BitsOnly(core)
    ensures var e, e' := Perform(m, l, p, core), Perform(md, d, p, Unnamed(core));
            && e'.events == e.events && BitsOnly(e.outcome.core) && e'.outcome.core == Unnamed(e.outcome.core)
            && AlikeOutcome(m, l, md, e.outcome, e'.outcome)
  {
    hide RegionsAt, Arms, Place;
    UnnamedBack(core);
    assert AlikeAt(m, l, md, d, p, Unnamed(core));
    var x, y := l.code[l.order[p]], d.code[d.order[p]];
    assert RendersInstr(l, x, y);
    var e, e' := Perform(m, l, p, core), Perform(md, d, p, Unnamed(core));
    if IsPrefix(x.op) {
      assert y == UnnamedInstr(x);
      assert Unnamed(core).pending + [y] == Unnamed(core.(pending := core.pending + [x])).pending;
    } else if IsPlain(x.op) {
      assert Pushed(x) == Pushed(y);
    } else {
      SameCalls(m, md, x.op, y.op, core);
    }
  }

  lemma SameCalls<N, R>(m: Machine<N, R>, md: Machine<nat, R>, op: int, op': int, core: Core<N, R>)
    requires md.probes == m.probes && (op' == op || (IsShortBranch(op) && op' == Widen(op)))
    ensures CallsProbe(m, op, core) <==> CallsProbe(md, op', Unnamed(core))
    ensures CallsProbe(m, op, core) ==> ProbeEvent(m, core) == ProbeEvent(md, Unnamed(core))
  {
  }

  lemma StepAlike<N, R(!new)>(m: Machine<N, R>, l: Listing<N>, md: Machine<nat, R>, d: Listing<nat>, c: Config<N, R>)
    requires Alike(m, l, md, d) && BitsOnly(c.core)
    ensures Step(md, d, UnnamedConfig(c)) == UnnamedConfig(Step(m, l, c)) && BitsOnly(Step(m, l, c).core)
  {
    hide Perform, BitsOnly, Unnamed, RendersInstr, AlikeAt;
    if c.Running? && c.pc < |l.order| {
      PerformAlike(m, l, md, d, c.pc, c.core);
      var e, e' := Perform(m, l, c.pc, c.core), Perform(md, d, c.pc, Unnamed(c.core));
      if e.outcome.Goto? { RenderedPos(l, d, e'.outcome.node); }
    }
  }

  // Whole runs

  /** What an observer sees, with the nodes numbered by their position in `l0`. */
  function NumberedTrace<N(==), R>(l0: Listing<N>, t: seq<Visit<N, R>>): seq<Visit<nat, R>> {
    if t == [] then [] else [Visit(Place(l0, t[0].node), Unnamed(t[0].core))] + NumberedTrace(l0, t[1..])
  }

  lemma {:induction false} NumberedConcat<N, R>(l0: Listing<N>, s: seq<Visit<N, R>>, t: seq<Visit<N, R>>)
    ensures NumberedTrace(l0, s + t) == NumberedTrace(l0, s) + NumberedTrace(l0, t)
  {
    hide Place, Unnamed;
    if s == [] {
      assert s + t == t;
    } else {
      assert (s + t)[1..] == s[1..] + t && (s + t)[0] == s[0];
      NumberedConcat(l0, s[1..], t);
    }
  }

  /** The same nodes are visible, under their numbers. */
  ghost predicate SameLabels<N>(l: Listing<N>, l0: Listing<N>, labels: map<N, N>, labels': map<nat, nat>) {
    forall p: nat :: p < |l.order| ==>
      && (p in labels' <==> l.order[p] in labels)
      && (p in labels' ==> labels'[p] == Place(l0, labels[l.order[p]]))
  }

  lemma SeenAlike<N, R>(l: Listing<N>, d: Listing<nat>, l0: Listing<N>, labels: map<N, N>, labels': map<nat, nat>, c: Config<N, R>)
    requires Renders(l, d) && SameLabels(l, l0, labels, labels')
    ensures Seen(d, UnnamedConfig(c), labels') == NumberedTrace(l0, Seen(l, c, labels))
  {
    hide Place, Unnamed, RendersInstr;
    if c.Running? && c.pc < |l.order| {
      assert d.order[c.pc] == c.pc;
      var n := l.order[c.pc];
      if n in labels { assert [Visit(labels[n], c.core)][1..] == []; }
    }
  }

  /** The numbered form runs like the list: the same instructions in the same states, the same calls of probes, and the
      same depth. */
  lemma {:induction false} RunAlike<N, R(!new)>(m: Machine<N, R>, l: Listing<N>, md: Machine<nat, R>, d: Listing<nat>, l0: Listing<N>,
                                          labels: map<N, N>, labels': map<nat, nat>, c: Config<N, R>, n: nat, depth: nat)
    requires Alike(m, l, md, d) && BitsOnly(c.core) && SameLabels(l, l0, labels, labels')
    ensures Run(md, d, UnnamedConfig(c), n) == UnnamedConfig(Run(m, l, c, n)) && BitsOnly(Run(m, l, c, n).core)
    ensures Trace(md, d, UnnamedConfig(c), n, labels') == NumberedTrace(l0, Trace(m, l, c, n, labels))
    ensures Within(md, d, UnnamedConfig(c), n, depth) <==> Within(m, l, c, n, depth)
    decreases n
  {
    hide Step, Seen, BitsOnly, SameLabels, Renders, AlikeAt;
    assert Renders(l, d);
    RendersWell(l, d);
    SameDepth(c);
    if n > 0 {
      var s := Step(m, l, c);
      StepAlike(m, l, md, d, c);
      SeenAlike(l, d, l0, labels, labels', c);
      RunAlike(m, l, md, d, l0, labels, labels', s, n - 1, depth);
      NumberedConcat(l0, Seen(l, c, labels), Trace(m, l, s, n - 1, labels));
    }
  }

  lemma RendersWell<N>(l: Listing<N>, d: Listing<nat>)
    requires Renders(l, d)
    ensures WellFormed(l) && WellFormed(d)
  {
  }

  lemma SameDepth<N, R>(c: Config<N, R>)
    ensures UnnamedConfig(c).core.stack == c.core.stack
  {
  }
}
