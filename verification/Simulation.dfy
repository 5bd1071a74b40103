/** A rewritten list behaves like the original one: erasing what was inserted from a run of the rewritten list
    leaves exactly the run of the original. */
module Simulation {
  import opened Opcodes
  import opened Listings
  import opened Machine
  import opened Blocks

  datatype Rewriting<N> = Rewriting(before: Listing<N>, after: Listing<N>, enter: seq<N>, blocks: seq<Block<N>>) {
    /** Where block `k` starts in the rewritten list. */
    function At(k: nat): nat
      requires k <= |blocks|
    {
      |enter| + Start(blocks, k)
    }
  }

  /** Every `switch` is followed by its arms. */
  predicate SwitchesComplete<N(==)>(l: Listing<N>)
    requires WellFormed(l)
  {
    forall p :: 0 <= p < |l.order| && l.code[l.order[p]].op == CEE_SWITCH ==>
      && l.code[l.order[p]].arg.Bits? && l.code[l.order[p]].arg.value >= 0
      && IsSwitch(l, p, l.code[l.order[p]].arg.value)
  }

  ghost predicate Valid<N, R>(m: Machine<N, R>, w: Rewriting<N>) {
    && Instrumented(m.probes, w.before, w.after, w.enter, w.blocks)
    && SwitchesComplete(w.before)
    && (forall n :: n in m.entries ==> n in w.before.order)
  }

  /** The position of the carrier of block `k`. */
  function Carrier<N>(w: Rewriting<N>, k: nat): nat
    requires k < |w.blocks|
  {
    w.At(k) + |w.blocks[k].pre|
  }

  // ---------- One block ----------

  lemma SliceOfSum<T>(a: seq<T>, f: seq<T>, s: nat, e: nat)
    requires s <= e <= |f|
    ensures (a + f)[|a| + s..|a| + e] == f[s..e]
  {
  }

  lemma Parts<N>(o: seq<N>, s: nat, b: Block<N>)
    requires s + |b.Nodes()| <= |o| && o[s..s + |b.Nodes()|] == b.Nodes()
    ensures o[s..s + |b.pre|] == b.pre
    ensures o[s + |b.pre|] == b.carrier
    ensures o[s + |b.pre| + 1..s + |b.Nodes()|] == b.post
  {
    var n := b.Nodes();
    assert n[..|b.pre|] == b.pre && n[|b.pre|] == b.carrier && n[|b.pre| + 1..] == b.post;
    assert o[s..s + |n|][..|b.pre|] == o[s..s + |b.pre|];
    assert o[s..s + |n|][|b.pre| + 1..] == o[s + |b.pre| + 1..s + |n|];
  }

  lemma BlockNodes<N, R>(m: Machine<N, R>, w: Rewriting<N>, k: nat)
    requires Valid(m, w) && k < |w.blocks|
    ensures var b, s := w.blocks[k], w.At(k);
            && w.At(k + 1) == s + |b.Nodes()| <= |w.after.order|
            && w.after.order[s..s + |b.Nodes()|] == b.Nodes()
            && w.after.order[s..s + |b.pre|] == b.pre
            && w.after.order[Carrier(w, k)] == b.carrier
            && w.after.order[Carrier(w, k) + 1..w.At(k + 1)] == b.post
  {
    hide GoodBlock, SwitchesComplete, IsEnterProbe, Distinct, Flatten, Start;
    var b, s := w.blocks[k], Start(w.blocks, k);
    BlockAt(w.blocks, k);
    SliceOfSum(w.enter, Flatten(w.blocks), s, s + |b.Nodes()|);
    Parts(w.after.order, w.At(k), b);
  }

  lemma Good<N, R>(m: Machine<N, R>, w: Rewriting<N>, k: nat)
    requires Valid(m, w) && k < |w.blocks|
    ensures var b, i := w.blocks[k], w.before.code[w.before.order[k]];
            && b.carrier in w.after.code && w.after.code[b.carrier] == i
            && (b.pre != [] ==> MayPrecede(w.before, k))
            && (b.post != [] ==> MayFollow(w.before, k))
            && RegionsAt(w.after, Carrier(w, k)) == RegionsAt(w.before, k)
  {
    assert GoodBlock(m.probes, w.before, w.after, |w.enter|, w.blocks, k);
  }

  /** Nothing separates two blocks that belong together. */
  lemma Adjacent<N, R>(m: Machine<N, R>, w: Rewriting<N>, k: nat)
    requires Valid(m, w) && k + 1 < |w.blocks| && !MayFollow(w.before, k) && !MayPrecede(w.before, k + 1)
    ensures w.At(k + 1) == Carrier(w, k) + 1 == Carrier(w, k + 1) < |w.after.order|
    ensures w.after.code[w.after.order[Carrier(w, k + 1)]] == w.before.code[w.before.order[k + 1]]
  {
    hide GoodBlock, Start, SwitchesComplete, IsEnterProbe, MayFollow, MayPrecede, RegionsAt;
    BlockNodes(m, w, k);
    BlockNodes(m, w, k + 1);
    Good(m, w, k);
    Good(m, w, k + 1);
  }

  /** The arms of a `switch` follow its carrier directly. */
  lemma {:induction false} ArmAligned<N, R>(m: Machine<N, R>, w: Rewriting<N>, k: nat, n: nat, j: nat)
    requires Valid(m, w) && k < |w.blocks| && IsSwitch(w.before, k, n) && 0 < j <= n
    ensures w.At(k + j) == Carrier(w, k) + j == Carrier(w, k + j)
    ensures Carrier(w, k) + j < |w.after.order|
    ensures w.after.code[w.after.order[Carrier(w, k) + j]] == w.before.code[w.before.order[k + j]]
    decreases j
  {
    hide GoodBlock, Start, SwitchesComplete, IsEnterProbe, Carrier, Flatten, Distinct;
    if j > 1 {
      ArmAligned(m, w, k, n, j - 1);
    }
    Adjacent(m, w, k + j - 1);
  }

  lemma SameArms<N>(l: Listing<N>, p: nat, l0: Listing<N>, k: nat, n: nat)
    requires WellFormed(l) && p < |l.order| && WellFormed(l0) && k < |l0.order| && IsSwitch(l0, k, n)
    requires l.code[l.order[p]] == l0.code[l0.order[k]]
    requires p + n < |l.order|
    requires forall j :: p < j <= p + n ==> l.code[l.order[j]] == l0.code[l0.order[k + (j - p)]]
    ensures Arms(l, p) == Arms(l0, k)
  {
    assert IsSwitch(l, p, n);
  }

  /** The carrier of a block is fetched exactly like the original instruction. */
  lemma SameFetch<N, R>(m: Machine<N, R>, w: Rewriting<N>, k: nat)
    requires Valid(m, w) && k < |w.blocks|
    ensures Carrier(w, k) < |w.after.order|
    ensures Fetch(w.after, Carrier(w, k)) == Fetch(w.before, k)
    ensures RegionsAt(w.after, Carrier(w, k)) == RegionsAt(w.before, k)
  {
    hide GoodBlock, Start, RegionsAt;
    BlockNodes(m, w, k);
    Good(m, w, k);
    var i := w.before.code[w.before.order[k]];
    if i.op == CEE_SWITCH {
      var c, n := Carrier(w, k), i.arg.value;
      assert IsSwitch(w.before, k, n);
      if n > 0 { ArmAligned(m, w, k, n, n); }
      forall j | c < j <= c + n
        ensures w.after.code[w.after.order[j]] == w.before.code[w.before.order[k + (j - c)]]
      {
        ArmAligned(m, w, k, n, j - c);
      }
      SameArms(w.after, c, w.before, k, n);
    }
  }

  // ---------- Neutral code ----------

  lemma PlainStep<N, R>(m: Machine<N, R>, l: Listing<N>, p: nat, core: Core<N, R>, log: seq<Event>)
    requires WellFormed(l) && p < |l.order| && IsPlain(l.code[l.order[p]].op) && core.pending == []
    ensures Step(m, l, Running(p, core, log))
         == Running(p + 1, core.(stack := core.stack + Pushed(l.code[l.order[p]])), log)
  {
  }

  lemma ProbeCallStep<N, R>(m: Machine<N, R>, l: Listing<N>, p: nat, core: Core<N, R>, log: seq<Event>,
                            stack: seq<Slot>, a: int, b: int, probe: int)
    requires WellFormed(l) && p < |l.order| && l.code[l.order[p]].op == CEE_CALLI && core.pending == []
    requires probe in m.probes && m.probes[probe] == 2
    requires core.stack == stack + [Int32(a), Int32(b), Int64(probe)]
    ensures Step(m, l, Running(p, core, log))
         == Running(p + 1, core.(stack := stack), log + [Event(probe, [a, b])])
  {
    assert CallsProbe(m, CEE_CALLI, core);
    assert ProbeEvent(m, core) == Event(probe, [a, b]);
    assert core.stack[..|stack|] == stack;
  }

  /** A configuration runs for `n` steps to `d`, unobserved and with at most `depth` slots on the stack. */
  ghost predicate Silently<N, R>(m: Machine<N, R>, l: Listing<N>, c: Config<N, R>, n: nat, d: Config<N, R>, labels: map<N, N>, depth: nat)
    requires WellFormed(l)
  {
    Run(m, l, c, n) == d && Trace(m, l, c, n, labels) == [] && Within(m, l, c, n, depth)
  }

  lemma SilentStart<N, R>(m: Machine<N, R>, l: Listing<N>, c: Config<N, R>, labels: map<N, N>, depth: nat)
    requires WellFormed(l) && |c.core.stack| <= depth
    ensures Silently(m, l, c, 0, c, labels, depth)
  {
  }

  lemma SilentStep<N, R>(m: Machine<N, R>, l: Listing<N>, c: Config<N, R>, n: nat, d: Config<N, R>, labels: map<N, N>, depth: nat)
    requires WellFormed(l) && Seen(l, c, labels) == [] && |c.core.stack| <= depth
    requires Silently(m, l, Step(m, l, c), n, d, labels, depth)
    ensures Silently(m, l, c, n + 1, d, labels, depth)
  {
  }

  lemma ProbeRun<N, R>(m: Machine<N, R>, l: Listing<N>, p: nat, s: seq<N>, core: Core<N, R>, log: seq<Event>,
                       n: nat, d: Config<N, R>, labels: map<N, N>, depth: nat)
    requires WellFormed(l) && p + 4 <= |l.order| && l.order[p..p + 4] == s
    requires IsProbe(m.probes, l.code, s) && core.pending == []
    requires (forall i :: i in s ==> i !in labels) && |core.stack| + 3 <= depth
    requires Silently(m, l, Running(p + 4, core, log + [EventOf(m.probes, l.code, s)]), n, d, labels, depth)
    ensures Silently(m, l, Running(p, core, log), n + 4, d, labels, depth)
  {
    hide Silently, Step;
    assert forall i :: 0 <= i < 4 ==> l.order[p + i] == s[i];
    var a, b, probe := l.code[s[0]].arg.value, l.code[s[1]].arg.value, l.code[s[2]].arg.value;
    var core1 := core.(stack := core.stack + [Int32(a)]);
    var core2 := core.(stack := core.stack + [Int32(a), Int32(b)]);
    var core3 := core.(stack := core.stack + [Int32(a), Int32(b), Int64(probe)]);
    assert core1.stack + [Int32(b)] == core2.stack && core2.stack + [Int64(probe)] == core3.stack;
    assert core3.(stack := core.stack) == core;
    ProbeCallStep(m, l, p + 3, core3, log, core.stack, a, b, probe);
    SilentStep(m, l, Running(p + 3, core3, log), n, d, labels, depth);
    PlainStep(m, l, p + 2, core2, log);
    SilentStep(m, l, Running(p + 2, core2, log), n + 1, d, labels, depth);
    PlainStep(m, l, p + 1, core1, log);
    SilentStep(m, l, Running(p + 1, core1, log), n + 2, d, labels, depth);
    PlainStep(m, l, p, core, log);
    SilentStep(m, l, Running(p, core, log), n + 3, d, labels, depth);
  }

  /** Neutral code runs through, leaves the state alone and logs its probe calls. */
  lemma {:induction false} NeutralRun<N, R>(m: Machine<N, R>, l: Listing<N>, p: nat, s: seq<N>, core: Core<N, R>, log: seq<Event>,
                                            labels: map<N, N>, depth: nat)
    requires WellFormed(l) && p + |s| <= |l.order| && l.order[p..p + |s|] == s
    requires Neutral(m.probes, l.code, s) && core.pending == []
    requires (forall i :: i in s ==> i !in labels) && |core.stack| + 3 <= depth
    ensures Silently(m, l, Running(p, core, log), |s|, Running(p + |s|, core, log + Events(m.probes, l.code, s)), labels, depth)
    decreases |s|
  {
    hide Silently, Step;
    var d := Running(p + |s|, core, log + Events(m.probes, l.code, s));
    if s == [] {
      assert log + [] == log;
      SilentStart(m, l, d, labels, depth);
    } else if l.code[s[0]].op == CEE_NOP {
      assert l.order[p] == s[0];
      PlainStep(m, l, p, core, log);
      assert core.stack + [] == core.stack;
      assert l.order[p + 1..p + 1 + |s[1..]|] == s[1..];
      NeutralRun(m, l, p + 1, s[1..], core, log, labels, depth);
      SilentStep(m, l, Running(p, core, log), |s| - 1, d, labels, depth);
    } else {
      var e := EventOf(m.probes, l.code, s[..4]);
      assert l.order[p..p + 4] == s[..4];
      assert l.order[p + 4..p + 4 + |s[4..]|] == s[4..];
      NeutralRun(m, l, p + 4, s[4..], core, log + [e], labels, depth);
      assert log + [e] + Events(m.probes, l.code, s[4..]) == log + Events(m.probes, l.code, s);
      ProbeRun(m, l, p, s[..4], core, log, |s| - 4, d, labels, depth);
    }
  }

  lemma EnterRun<N, R>(m: Machine<N, R>, l: Listing<N>, s: seq<N>, core: Core<N, R>, labels: map<N, N>, depth: nat)
    requires WellFormed(l) && s <= l.order && IsEnterProbe(m.probes, l.code, s)
    requires core.pending == [] && core.stack == [] && (forall i :: i in s ==> i !in labels) && 4 <= depth
    ensures Silently(m, l, Running(0, core, []), 5, Running(5, core, EnterEvents(m.probes, l.code, s)), labels, depth)
  {
    hide Silently, Step;
    assert forall i :: 0 <= i < 5 ==> l.order[i] == s[i];
    var a, b, probe := l.code[s[0]].arg.value, l.code[s[1]].arg.value, l.code[s[3]].arg.value;
    var core1 := core.(stack := [Int32(a)]);
    var core2 := core.(stack := [Int32(a), Int32(b)]);
    var core3 := core.(stack := [Int32(a), Int32(b), Int32(0)]);
    var core4 := core.(stack := [Int32(a), Int32(b), Int32(0), Int64(probe)]);
    assert core.stack + [Int32(a)] == core1.stack && core1.stack + [Int32(b)] == core2.stack;
    assert core2.stack + [Int32(0)] == core3.stack && core3.stack + [Int64(probe)] == core4.stack;
    var d := Running(5, core, EnterEvents(m.probes, l.code, s));
    EnterCallStep(m, l, core4, a, b, probe);
    assert core4.(stack := []) == core;
    SilentStart(m, l, d, labels, depth);
    SilentStep(m, l, Running(4, core4, []), 0, d, labels, depth);
    PlainStep(m, l, 3, core3, []);
    SilentStep(m, l, Running(3, core3, []), 1, d, labels, depth);
    PlainStep(m, l, 2, core2, []);
    SilentStep(m, l, Running(2, core2, []), 2, d, labels, depth);
    PlainStep(m, l, 1, core1, []);
    SilentStep(m, l, Running(1, core1, []), 3, d, labels, depth);
    PlainStep(m, l, 0, core, []);
    SilentStep(m, l, Running(0, core, []), 4, d, labels, depth);
  }

  lemma EnterCallStep<N, R>(m: Machine<N, R>, l: Listing<N>, core: Core<N, R>, a: int, b: int, probe: int)
    requires WellFormed(l) && 4 < |l.order| && l.code[l.order[4]].op == CEE_CALLI && core.pending == []
    requires probe in m.probes && m.probes[probe] == 3
    requires core.stack == [Int32(a), Int32(b), Int32(0), Int64(probe)]
    ensures Step(m, l, Running(4, core, [])) == Running(5, core.(stack := []), [Event(probe, [a, b, 0])])
  {
    assert CallsProbe(m, CEE_CALLI, core);
    assert ProbeEvent(m, core) == Event(probe, [a, b, 0]);
  }

  // ---------- One instruction ----------

  /** The carriers are labelled with the nodes of the original instructions, and nothing else is labelled. */
  ghost predicate IsLabelling<N>(w: Rewriting<N>, labels: map<N, N>)
    requires |w.blocks| == |w.before.order|
  {
    && (forall k :: 0 <= k < |w.blocks| ==> w.blocks[k].carrier in labels && labels[w.blocks[k].carrier] == w.before.order[k])
    && (forall n :: n in labels ==> exists k :: 0 <= k < |w.blocks| && w.blocks[k].carrier == n)
  }

  function Itself<N(==)>(l: Listing<N>): map<N, N> {
    map n | n in l.order :: n
  }

  ghost predicate Matches<N, R>(w: Rewriting<N>, c0: Config<N, R>, c1: Config<N, R>)
    requires WellFormed(w.before) && |w.blocks| == |w.before.order|
  {
    && c1.core == c0.core
    && (c1.Stopped? <==> c0.Stopped?)
    && (c0.Running? ==>
          && c0.pc <= |w.blocks| && c1.pc == w.At(c0.pc)
          && (c0.core.pending != [] ==> c0.pc > 0 && IsPrefix(w.before.code[w.before.order[c0.pc - 1]].op)))
  }

  /** Only the carrier of a block is labelled. */
  lemma Unlabelled<N, R>(m: Machine<N, R>, w: Rewriting<N>, labels: map<N, N>, p: nat)
    requires Valid(m, w) && IsLabelling(w, labels) && p < |w.after.order|
    requires forall k :: 0 <= k < |w.blocks| ==> Carrier(w, k) != p
    ensures w.after.order[p] !in labels
  {
    hide GoodBlock, Start, SwitchesComplete, IsEnterProbe;
    var n := w.after.order[p];
    if n in labels {
      var k :| 0 <= k < |w.blocks| && w.blocks[k].carrier == n;
      BlockNodes(m, w, k);
      PosUnique(w.after.order, p);
      PosUnique(w.after.order, Carrier(w, k));
      assert false;
    }
  }

  /** Carriers of different blocks lie outside of a block. */
  lemma CarrierInside<N>(w: Rewriting<N>, j: nat, k: nat)
    requires j < |w.blocks| && k < |w.blocks|
    ensures w.At(j) <= Carrier(w, j) < w.At(j) + |w.blocks[j].Nodes()|
    ensures w.At(k) <= Carrier(w, j) < w.At(k) + |w.blocks[k].Nodes()| ==> j == k
  {
    hide Start;
    if j < k { StartMonotone(w.blocks, j, k); }
    if k < j { StartMonotone(w.blocks, k, j); }
  }

  lemma PreAndPostUnlabelled<N, R>(m: Machine<N, R>, w: Rewriting<N>, labels: map<N, N>, k: nat)
    requires Valid(m, w) && IsLabelling(w, labels) && k < |w.blocks|
    ensures forall n :: n in w.blocks[k].pre || n in w.blocks[k].post ==> n !in labels
  {
    hide GoodBlock, Start, SwitchesComplete, IsEnterProbe, IsLabelling, Flatten, Distinct;
    BlockNodes(m, w, k);
    var b := w.blocks[k];
    forall n | n in b.pre || n in b.post ensures n !in labels {
      var i :| 0 <= i < |b.Nodes()| && b.Nodes()[i] == n && i != |b.pre| by {
        if n in b.pre {
          var i :| 0 <= i < |b.pre| && b.pre[i] == n;
          assert b.Nodes()[i] == n;
        } else {
          var i :| 0 <= i < |b.post| && b.post[i] == n;
          assert b.Nodes()[|b.pre| + 1 + i] == n;
        }
      }
      var p := w.At(k) + i;
      assert w.after.order[p] == n;
      forall j | 0 <= j < |w.blocks| ensures Carrier(w, j) != p { CarrierInside(w, j, k); }
      Unlabelled(m, w, labels, p);
    }
  }

  /** Branches land on the first node of the target's block. */
  lemma Landing<N, R>(m: Machine<N, R>, w: Rewriting<N>, n: N)
    requires Valid(m, w) && n in m.entries
    ensures n in w.before.order && n in w.after.order
    ensures Pos(w.after.order, n) == w.At(Pos(w.before.order, n))
  {
    hide SwitchesComplete, IsEnterProbe, Flatten, Start, RegionsAt, Neutral;
    var k := Pos(w.before.order, n);
    BlockNodes(m, w, k);
    assert GoodBlock(m.probes, w.before, w.after, |w.enter|, w.blocks, k);
    assert w.after.order[w.At(k)..w.At(k) + |w.blocks[k].Nodes()|][0] == w.after.order[w.At(k)];
    PosUnique(w.after.order, w.At(k));
  }

  /** The effect of the instruction the original run is about to execute. */
  function Next<N(==), R>(m: Machine<N, R>, w: Rewriting<N>, c: Config<N, R>): Effect<N, R>
    requires WellFormed(w.before) && c.Running? && c.pc < |w.before.order|
  {
    Perform(m, w.before, c.pc, c.core)
  }

  /** The number of steps the rewritten run takes for one step of the original. */
  function Cost<N(==), R>(m: Machine<N, R>, w: Rewriting<N>, c: Config<N, R>): (n: nat)
    requires WellFormed(w.before) && |w.blocks| == |w.before.order|
    ensures n > 0
  {
    if c.Stopped? || c.pc >= |w.before.order| then 1
    else |w.blocks[c.pc].pre| + 1 + if Next(m, w, c).outcome.Fall? then |w.blocks[c.pc].post| else 0
  }

  /** The probe calls the rewritten run makes for one step of the original: those in front of the instruction, and
      those behind it if it falls through. */
  ghost function StepLog<N, R>(m: Machine<N, R>, w: Rewriting<N>, c: Config<N, R>): seq<Event>
    requires Valid(m, w)
  {
    if c.Stopped? || c.pc >= |w.before.order| then []
    else
      assert GoodBlock(m.probes, w.before, w.after, |w.enter|, w.blocks, c.pc);
      var b, e := w.blocks[c.pc], Next(m, w, c);
      Events(m.probes, w.after.code, b.pre) + e.events + if e.outcome.Fall? then Events(m.probes, w.after.code, b.post) else []
  }

  /** From `c` the list runs `n` steps to `d`, while the observer sees `seen` and the stack stays within `depth`. */
  ghost predicate Runs<N, R>(m: Machine<N, R>, l: Listing<N>, c: Config<N, R>, n: nat, d: Config<N, R>, labels: map<N, N>,
                             seen: seq<Visit<N, R>>, depth: nat)
    requires WellFormed(l)
  {
    Run(m, l, c, n) == d && Trace(m, l, c, n, labels) == seen && Within(m, l, c, n, depth)
  }

  lemma RunsThen<N, R>(m: Machine<N, R>, l: Listing<N>, c: Config<N, R>, n: nat, d: Config<N, R>, k: nat, e: Config<N, R>,
                       labels: map<N, N>, seen: seq<Visit<N, R>>, seen': seq<Visit<N, R>>, depth: nat)
    requires WellFormed(l) && Runs(m, l, c, n, d, labels, seen, depth) && Runs(m, l, d, k, e, labels, seen', depth)
    ensures Runs(m, l, c, n + k, e, labels, seen + seen', depth)
  {
    RunAdd(m, l, c, n, k, labels, depth);
  }

  lemma RunsSilently<N, R>(m: Machine<N, R>, l: Listing<N>, c: Config<N, R>, n: nat, d: Config<N, R>, labels: map<N, N>, depth: nat)
    requires WellFormed(l) && Silently(m, l, c, n, d, labels, depth)
    ensures Runs(m, l, c, n, d, labels, [], depth)
  {
  }

  lemma RunsStep<N, R>(m: Machine<N, R>, l: Listing<N>, c: Config<N, R>, labels: map<N, N>, depth: nat)
    requires WellFormed(l) && |c.core.stack| <= depth && |Step(m, l, c).core.stack| <= depth
    ensures Runs(m, l, c, 1, Step(m, l, c), labels, Seen(l, c, labels), depth)
  {
    assert Run(m, l, Step(m, l, c), 0) == Step(m, l, c);
    assert Trace(m, l, Step(m, l, c), 0, labels) == [];
    assert Within(m, l, Step(m, l, c), 0, depth);
  }

  /** The neutral code in front of the carrier. */
  lemma RunPre<N, R>(m: Machine<N, R>, w: Rewriting<N>, labels: map<N, N>, k: nat, core: Core<N, R>, log: seq<Event>, depth: nat)
    requires Valid(m, w) && IsLabelling(w, labels) && k < |w.blocks| && |core.stack| + 3 <= depth
    requires core.pending != [] ==> w.blocks[k].pre == []
    ensures Neutral(m.probes, w.after.code, w.blocks[k].pre)
    ensures Runs(m, w.after, Running(w.At(k), core, log), |w.blocks[k].pre|,
                 Running(Carrier(w, k), core, log + Events(m.probes, w.after.code, w.blocks[k].pre)), labels, [], depth)
  {
    hide Runs, Silently, SwitchesComplete, IsLabelling, IsEnterProbe, Flatten, Start, RegionsAt, Neutral, Events;
    BlockNodes(m, w, k);
    PreAndPostUnlabelled(m, w, labels, k);
    assert GoodBlock(m.probes, w.before, w.after, |w.enter|, w.blocks, k);
    var pre, c := w.blocks[k].pre, Running(w.At(k), core, log);
    if core.pending != [] {
      EmptyEvents(m.probes, w.after.code, pre);
      assert log + [] == log;
      SilentStart(m, w.after, c, labels, depth);
    } else {
      NeutralRun(m, w.after, w.At(k), pre, core, log, labels, depth);
    }
    RunsSilently(m, w.after, c, |pre|, Running(Carrier(w, k), core, log + Events(m.probes, w.after.code, pre)), labels, depth);
  }

  lemma EmptyEvents<N>(probes: map<int, nat>, code: map<N, Instr<N>>, s: seq<N>)
    requires s == []
    ensures Neutral(probes, code, s) && Events(probes, code, s) == []
  {
  }

  /** The neutral code behind the carrier. */
  lemma RunPost<N, R>(m: Machine<N, R>, w: Rewriting<N>, labels: map<N, N>, k: nat, core: Core<N, R>, log: seq<Event>, depth: nat)
    requires Valid(m, w) && IsLabelling(w, labels) && k < |w.blocks| && |core.stack| + 3 <= depth
    requires core.pending != [] ==> w.blocks[k].post == []
    ensures Neutral(m.probes, w.after.code, w.blocks[k].post)
    ensures Runs(m, w.after, Running(Carrier(w, k) + 1, core, log), |w.blocks[k].post|,
                 Running(w.At(k + 1), core, log + Events(m.probes, w.after.code, w.blocks[k].post)), labels, [], depth)
  {
    hide Runs, Silently, SwitchesComplete, IsLabelling, IsEnterProbe, Flatten, Start, RegionsAt, Neutral, Events;
    BlockNodes(m, w, k);
    PreAndPostUnlabelled(m, w, labels, k);
    assert GoodBlock(m.probes, w.before, w.after, |w.enter|, w.blocks, k);
    var post, c := w.blocks[k].post, Running(Carrier(w, k) + 1, core, log);
    if core.pending != [] {
      EmptyEvents(m.probes, w.after.code, post);
      assert log + [] == log;
      SilentStart(m, w.after, c, labels, depth);
    } else {
      NeutralRun(m, w.after, Carrier(w, k) + 1, post, core, log, labels, depth);
    }
    RunsSilently(m, w.after, c, |post|, Running(w.At(k + 1), core, log + Events(m.probes, w.after.code, post)), labels, depth);
  }

  /** Only a prefix leaves something pending. */
  lemma PendingAfter<N, R>(m: Machine<N, R>, f: Fetched<N>, regions: Regions, core: Core<N, R>)
    ensures var o := Execute(m, f, regions, core).outcome;
            o.core.pending != [] ==> o.Halt? || (o.Fall? && IsPrefix(f.instr.op))
  {
  }

  /** A step in terms of the effect of its instruction. */
  lemma StepByEffect<N, R>(m: Machine<N, R>, l: Listing<N>, p: nat, core: Core<N, R>, log: seq<Event>)
    requires WellFormed(l) && p < |l.order|
    ensures var e, s := Perform(m, l, p, core), Step(m, l, Running(p, core, log));
            && s.core == e.outcome.core && s.log == log + e.events
            && (e.outcome.Fall? ==> s.Running? && s.pc == p + 1)
            && (e.outcome.Halt? ==> s.Stopped?)
            && (e.outcome.Goto? ==> if e.outcome.node in m.entries && e.outcome.node in l.order
                                    then s.Running? && s.pc == Pos(l.order, e.outcome.node) else s.Stopped?)
  {
    hide Perform, Pos;
  }

  lemma CarrierSeen<N, R>(m: Machine<N, R>, w: Rewriting<N>, labels: map<N, N>, k: nat, core: Core<N, R>, log0: seq<Event>, log: seq<Event>)
    requires Valid(m, w) && IsLabelling(w, labels) && k < |w.blocks|
    ensures Seen(w.after, Running(Carrier(w, k), core, log), labels)
         == Seen(w.before, Running(k, core, log0), Itself(w.before)) == [Visit(w.before.order[k], core)]
  {
    hide GoodBlock, SwitchesComplete, IsEnterProbe, Flatten, Start, Distinct;
    BlockNodes(m, w, k);
  }

  /** The carrier takes the same step as the original instruction. */
  lemma CarrierStep<N, R>(m: Machine<N, R>, w: Rewriting<N>, labels: map<N, N>, k: nat, core: Core<N, R>, log0: seq<Event>, log: seq<Event>)
    requires Valid(m, w) && IsLabelling(w, labels) && k < |w.blocks|
    ensures var c0, c1 := Running(k, core, log0), Running(Carrier(w, k), core, log);
            var s0, s1 := Step(m, w.before, c0), Step(m, w.after, c1);
            && Seen(w.after, c1, labels) == Seen(w.before, c0, Itself(w.before))
            && s1.core == s0.core && s1.log == log + Next(m, w, c0).events
            && (s0.Stopped? <==> s1.Stopped?)
            && (Next(m, w, c0).outcome.Fall? ==> s0.Running? && s0.pc == k + 1 && s1.pc == Carrier(w, k) + 1)
            && (!Next(m, w, c0).outcome.Fall? && s0.Running? ==> s0.pc < |w.blocks| && s1.pc == w.At(s0.pc))
            && (s0.core.pending != [] ==> s0.Stopped? || (s0.pc == k + 1 && IsPrefix(w.before.code[w.before.order[k]].op)))
  {
    hide GoodBlock, SwitchesComplete, IsEnterProbe, Flatten, Start, RegionsAt, Execute, Distinct, Step, Seen, IsLabelling;
    SameFetch(m, w, k);
    CarrierSeen(m, w, labels, k, core, log0, log);
    var e := Next(m, w, Running(k, core, log0));
    assert e == Perform(m, w.after, Carrier(w, k), core);
    StepByEffect(m, w.before, k, core, log0);
    StepByEffect(m, w.after, Carrier(w, k), core, log);
    PendingAfter(m, Fetch(w.before, k), RegionsAt(w.before, k), core);
    if e.outcome.Goto? && e.outcome.node in m.entries {
      Landing(m, w, e.outcome.node);
    }
  }

  /** One step of the original is matched by the steps of its block. */
  lemma StepMatches<N, R>(m: Machine<N, R>, w: Rewriting<N>, labels: map<N, N>, c0: Config<N, R>, c1: Config<N, R>, depth: nat)
    returns (d: Config<N, R>)
    requires Valid(m, w) && IsLabelling(w, labels) && Matches(w, c0, c1)
    requires |c0.core.stack| + 3 <= depth && |Step(m, w.before, c0).core.stack| + 3 <= depth
    ensures Runs(m, w.after, c1, Cost(m, w, c0), d, labels, Seen(w.before, c0, Itself(w.before)), depth)
    ensures Matches(w, Step(m, w.before, c0), d)
    ensures d.log == c1.log + StepLog(m, w, c0)
  {
    hide Runs, GoodBlock, SwitchesComplete, IsLabelling, IsEnterProbe, Flatten, Start, Distinct, Neutral, Events, Perform;
    if c0.Stopped? || c0.pc >= |w.before.order| {
      RunsStep(m, w.after, c1, labels, depth);
      d := Step(m, w.after, c1);
      AtEnd(m, w);
      assert c1.log + [] == c1.log;
    } else {
      var k := c0.pc;
      var b := w.blocks[k];
      Good(m, w, k);
      RunPre(m, w, labels, k, c0.core, c1.log, depth);
      var c2 := Running(Carrier(w, k), c0.core, c1.log + Events(m.probes, w.after.code, b.pre));
      CarrierStep(m, w, labels, k, c0.core, c0.log, c2.log);
      var s := Step(m, w.after, c2);
      RunsStep(m, w.after, c2, labels, depth);
      var seen := Seen(w.after, c2, labels);
      RunsThen(m, w.after, c1, |b.pre|, c2, 1, s, labels, [], seen, depth);
      assert [] + seen == seen;
      if Next(m, w, c0).outcome.Fall? {
        RunPost(m, w, labels, k, s.core, s.log, depth);
        d := Running(w.At(k + 1), s.core, s.log + Events(m.probes, w.after.code, b.post));
        RunsThen(m, w.after, c1, |b.pre| + 1, s, |b.post|, d, labels, seen, [], depth);
        assert seen + [] == seen;
      } else {
        d := s;
        assert d.log + [] == d.log;
      }
      LogSum(c1.log, Events(m.probes, w.after.code, b.pre), Next(m, w, c0).events,
             if Next(m, w, c0).outcome.Fall? then Events(m.probes, w.after.code, b.post) else []);
    }
  }

  lemma LogSum<T>(a: seq<T>, b: seq<T>, c: seq<T>, d: seq<T>)
    ensures a + b + c + d == a + (b + c + d)
  {
  }

  lemma AtEnd<N, R>(m: Machine<N, R>, w: Rewriting<N>)
    requires Valid(m, w)
    ensures w.At(|w.blocks|) == |w.after.order|
  {
  }

  // ---------- Whole runs ----------

  /** The probe calls made while the original takes `n` steps. */
  ghost function RunLog<N, R>(m: Machine<N, R>, w: Rewriting<N>, c: Config<N, R>, n: nat): seq<Event>
    requires Valid(m, w)
    decreases n
  {
    if n == 0 then [] else StepLog(m, w, c) + RunLog(m, w, Step(m, w.before, c), n - 1)
  }

  lemma WithinStep<N, R>(m: Machine<N, R>, l: Listing<N>, c: Config<N, R>, n: nat, depth: nat)
    requires WellFormed(l) && n > 0 && Within(m, l, c, n, depth)
    ensures |c.core.stack| <= depth && |Step(m, l, c).core.stack| <= depth && Within(m, l, Step(m, l, c), n - 1, depth)
  {
  }

  lemma {:induction false} RunMatches<N, R>(m: Machine<N, R>, w: Rewriting<N>, labels: map<N, N>, c0: Config<N, R>, c1: Config<N, R>,
                                            n: nat, depth: nat)
    returns (k: nat, d: Config<N, R>)
    requires Valid(m, w) && IsLabelling(w, labels) && Matches(w, c0, c1) && Within(m, w.before, c0, n, depth)
    ensures k >= n && Runs(m, w.after, c1, k, d, labels, Trace(m, w.before, c0, n, Itself(w.before)), depth + 3)
    ensures Matches(w, Run(m, w.before, c0, n), d) && d.log == c1.log + RunLog(m, w, c0, n)
    decreases n
  {
    hide Runs, GoodBlock, SwitchesComplete, IsEnterProbe, Flatten, Distinct, IsLabelling, Step, StepLog, Cost, Seen, Itself;
    if n == 0 {
      k, d := 0, c1;
      SilentStart(m, w.after, c1, labels, depth + 3);
      RunsSilently(m, w.after, c1, 0, c1, labels, depth + 3);
      assert c1.log + [] == c1.log;
    } else {
      var s0 := Step(m, w.before, c0);
      WithinStep(m, w.before, c0, n, depth);
      var s1 := StepMatches(m, w, labels, c0, c1, depth + 3);
      var k', d' := RunMatches(m, w, labels, s0, s1, n - 1, depth);
      k, d := Cost(m, w, c0) + k', d';
      RunsThen(m, w.after, c1, Cost(m, w, c0), s1, k', d, labels,
               Seen(w.before, c0, Itself(w.before)), Trace(m, w.before, s0, n - 1, Itself(w.before)), depth + 3);
      assert c1.log + StepLog(m, w, c0) + RunLog(m, w, s0, n - 1) == c1.log + RunLog(m, w, c0, n);
    }
  }

  lemma {:induction false} SomeDepth<N, R>(m: Machine<N, R>, l: Listing<N>, c: Config<N, R>, n: nat) returns (depth: nat)
    requires WellFormed(l)
    ensures Within(m, l, c, n, depth)
    decreases n
  {
    depth := |c.core.stack|;
    if n > 0 {
      var d := SomeDepth(m, l, Step(m, l, c), n - 1);
      if d > depth { depth := d; } else { Deeper(m, l, Step(m, l, c), n - 1, d, depth); }
    }
  }

  lemma {:induction false} Deeper<N, R>(m: Machine<N, R>, l: Listing<N>, c: Config<N, R>, n: nat, d: nat, depth: nat)
    requires WellFormed(l) && Within(m, l, c, n, d) && d <= depth
    ensures Within(m, l, c, n, depth)
    decreases n
  {
    if n > 0 { Deeper(m, l, Step(m, l, c), n - 1, d, depth); }
  }

  lemma SeenOnce<N, R>(l: Listing<N>, c: Config<N, R>, labels: map<N, N>)
    ensures |Seen(l, c, labels)| <= 1
  {
  }

  lemma PrefixBehind<T>(v: seq<T>, rest: seq<T>, p: seq<T>)
    requires p <= v + rest && |v| <= |p|
    ensures p == v + p[|v|..] && p[|v|..] <= rest
  {
  }

  /** Every beginning of a trace is itself a trace. */
  lemma {:induction false} PrefixIsTrace<N, R>(m: Machine<N, R>, l: Listing<N>, c: Config<N, R>, n: nat, labels: map<N, N>, p: seq<Visit<N, R>>)
    returns (i: nat)
    requires WellFormed(l) && p <= Trace(m, l, c, n, labels)
    ensures i <= n && Trace(m, l, c, i, labels) == p
    decreases n
  {
    hide Step, Seen, WellFormed;
    if p == [] {
      i := 0;
    } else {
      var v, c' := Seen(l, c, labels), Step(m, l, c);
      SeenOnce(l, c, labels);
      var q := p[|v|..];
      PrefixBehind(v, Trace(m, l, c', n - 1, labels), p);
      var j := PrefixIsTrace(m, l, c', n - 1, labels, q);
      i := j + 1;
      assert Trace(m, l, c, i, labels) == v + Trace(m, l, c', j, labels);
    }
  }

  /** The rewritten method, started like the original, first passes the probe at its start. */
  lemma RunEnter<N, R>(m: Machine<N, R>, w: Rewriting<N>, labels: map<N, N>, rest: R, depth: nat)
    returns (c1: Config<N, R>)
    requires Valid(m, w) && IsLabelling(w, labels) && 4 <= depth
    ensures Runs(m, w.after, Entry(rest), |w.enter|, c1, labels, [], depth)
    ensures Matches(w, Entry(rest), c1) && c1.log == EnterEvents(m.probes, w.after.code, w.enter)
  {
    hide Runs, Silently, GoodBlock, SwitchesComplete, Flatten, Distinct, Step;
    c1 := Running(|w.enter|, Core([], [], rest), EnterEvents(m.probes, w.after.code, w.enter));
    if w.enter == [] {
      SilentStart(m, w.after, Entry(rest), labels, depth);
    } else {
      EnterUnlabelled(m, w, labels);
      EnterRun(m, w.after, w.enter, Core([], [], rest), labels, depth);
    }
    RunsSilently(m, w.after, Entry(rest), |w.enter|, c1, labels, depth);
  }

  lemma EnterUnlabelled<N, R>(m: Machine<N, R>, w: Rewriting<N>, labels: map<N, N>)
    requires Valid(m, w) && IsLabelling(w, labels)
    ensures forall n :: n in w.enter ==> n !in labels
  {
    hide GoodBlock, SwitchesComplete, IsEnterProbe, Flatten, Start, Distinct, IsLabelling;
    forall n | n in w.enter ensures n !in labels {
      var p :| 0 <= p < |w.enter| && w.enter[p] == n;
      assert w.after.order[p] == n;
      Unlabelled(m, w, labels, p);
    }
  }

  /** Everything the original method does, the rewritten one does: after enough steps it is in the matching state,
      an observer has seen the same instructions executed in the same states, and the log holds the call of the
      probe at the start followed by the calls that belong to the executed instructions, in order. */
  lemma MeaningPreserved<N, R>(m: Machine<N, R>, w: Rewriting<N>, labels: map<N, N>, rest: R, n: nat)
    returns (k: nat)
    requires Valid(m, w) && IsLabelling(w, labels)
    ensures k >= n
    ensures Trace(m, w.after, Entry(rest), k, labels) == Trace(m, w.before, Entry(rest), n, Itself(w.before))
    ensures Matches(w, Run(m, w.before, Entry(rest), n), Run(m, w.after, Entry(rest), k))
    ensures Run(m, w.after, Entry(rest), k).log == EnterEvents(m.probes, w.after.code, w.enter) + RunLog(m, w, Entry(rest), n)
  {
    hide GoodBlock, SwitchesComplete, IsEnterProbe, Flatten, Distinct, Step, StepLog, IsLabelling, Trace, Run, Within, RunLog;
    var depth := SomeDepth(m, w.before, Entry(rest), n);
    Deeper(m, w.before, Entry(rest), n, depth, depth + 1);
    var c1 := RunEnter(m, w, labels, rest, depth + 1 + 3);
    var k', d := RunMatches(m, w, labels, Entry(rest), c1, n, depth + 1);
    k := |w.enter| + k';
    var t := Trace(m, w.before, Entry(rest), n, Itself(w.before));
    RunsThen(m, w.after, Entry(rest), |w.enter|, c1, k', d, labels, [], t, depth + 1 + 3);
    assert [] + t == t;
  }

  /** The rewritten method does nothing else: whatever an observer has seen of its run is a run of the original. */
  lemma NothingAdded<N, R>(m: Machine<N, R>, w: Rewriting<N>, labels: map<N, N>, rest: R, k: nat) returns (n: nat)
    requires Valid(m, w) && IsLabelling(w, labels)
    ensures n <= k
    ensures Trace(m, w.after, Entry(rest), k, labels) == Trace(m, w.before, Entry(rest), n, Itself(w.before))
  {
    hide GoodBlock, SwitchesComplete, IsEnterProbe, Flatten, Distinct, Step, StepLog, IsLabelling, Trace, Run, Within, RunLog, Matches;
    var k' := MeaningPreserved(m, w, labels, rest, k);
    RunAdd(m, w.after, Entry(rest), k, k' - k, labels, 0);
    n := PrefixIsTrace(m, w.before, Entry(rest), k, Itself(w.before), Trace(m, w.after, Entry(rest), k, labels));
  }

  /** The probes need at most four slots on top of what the original method uses. */
  lemma StackBounded<N, R>(m: Machine<N, R>, w: Rewriting<N>, labels: map<N, N>, rest: R, depth: nat, k: nat)
    requires Valid(m, w) && IsLabelling(w, labels)
    requires forall n: nat :: Within(m, w.before, Entry(rest), n, depth)
    ensures Within(m, w.after, Entry(rest), k, depth + 4)
  {
    hide GoodBlock, SwitchesComplete, IsEnterProbe, Flatten, Distinct, Step, StepLog, IsLabelling, Trace, Run, Within, RunLog, Matches;
    assert Within(m, w.before, Entry(rest), k, depth);
    Deeper(m, w.before, Entry(rest), k, depth, depth + 1);
    var c1 := RunEnter(m, w, labels, rest, depth + 1 + 3);
    var k', d := RunMatches(m, w, labels, Entry(rest), c1, k, depth + 1);
    var t := Trace(m, w.before, Entry(rest), k, Itself(w.before));
    RunsThen(m, w.after, Entry(rest), |w.enter|, c1, k', d, labels, [], t, depth + 1 + 3);
    RunAdd(m, w.after, Entry(rest), k, |w.enter| + k' - k, labels, depth + 4);
  }
}
