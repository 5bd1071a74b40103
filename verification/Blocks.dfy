/** The shape of a rewritten instruction list: every original instruction has grown into a block of consecutive
    nodes.  The block starts with the node of the original instruction, which branches and clauses still refer to. */
module Blocks {
  import opened Opcodes
  import opened Listings
  import opened Machine

  /** `carrier` holds the original instruction; `pre` runs before it, `post` only if it falls through. */
  datatype Block<N> = Block(pre: seq<N>, carrier: N, post: seq<N>) {
    function Nodes(): (s: seq<N>)
      ensures |s| == |pre| + 1 + |post|
    {
      pre + [carrier] + post
    }

    /** The node of the original instruction. */
    function Home(): N { Nodes()[0] }
  }

  function Flatten<N>(bs: seq<Block<N>>): seq<N> {
    if bs == [] then [] else bs[0].Nodes() + Flatten(bs[1..])
  }

  /** Where block `k` starts in the flattened list. */
  function Start<N>(bs: seq<Block<N>>, k: nat): (p: nat)
    requires k <= |bs|
    ensures p <= |Flatten(bs)|
    ensures k == |bs| ==> p == |Flatten(bs)|
    ensures k < |bs| ==> p + |bs[k].Nodes()| <= |Flatten(bs)|
  {
    if k == 0 then 0 else |bs[0].Nodes()| + Start(bs[1..], k - 1)
  }

  lemma {:induction false} BlockAt<N>(bs: seq<Block<N>>, k: nat)
    requires k < |bs|
    ensures Start(bs, k + 1) == Start(bs, k) + |bs[k].Nodes()|
    ensures Flatten(bs)[Start(bs, k)..Start(bs, k + 1)] == bs[k].Nodes()
  {
    hide Flatten, Start;
    FlattenCons(bs, k);
    FlattenCons(bs, k + 1);
    var a, f := bs[0].Nodes(), Flatten(bs[1..]);
    if k == 0 {
      assert Start(bs[1..], 0) == 0 by { StartZero(bs[1..]); }
    } else {
      BlockAt(bs[1..], k - 1);
      assert bs[1..][k - 1] == bs[k];
      Behind(a, f, Start(bs[1..], k - 1), Start(bs[1..], k));
    }
  }

  lemma FlattenCons<N>(bs: seq<Block<N>>, k: nat)
    requires bs != [] && k <= |bs|
    ensures Flatten(bs) == bs[0].Nodes() + Flatten(bs[1..])
    ensures Start(bs, k) == if k == 0 then 0 else |bs[0].Nodes()| + Start(bs[1..], k - 1)
  {
  }

  lemma StartZero<N>(bs: seq<Block<N>>)
    ensures Start(bs, 0) == 0
  {
  }

  lemma Behind<T>(a: seq<T>, f: seq<T>, s: nat, e: nat)
    requires s <= e <= |f|
    ensures (a + f)[|a| + s..|a| + e] == f[s..e]
  {
  }

  lemma Exchanged<T>(a: seq<T>, f: seq<T>, s: nat, e: nat, m: seq<T>)
    requires s <= e <= |f|
    ensures (a + f)[..|a| + s] + m + (a + f)[|a| + e..] == a + (f[..s] + m + f[e..])
  {
  }

  /** Every position of the flattened list belongs to a block. */
  lemma {:induction false} Locate<N>(bs: seq<Block<N>>, p: nat) returns (k: nat)
    requires p < |Flatten(bs)|
    ensures k < |bs| && Start(bs, k) <= p < Start(bs, k) + |bs[k].Nodes()|
  {
    if p < |bs[0].Nodes()| {
      k := 0;
    } else {
      var j := Locate(bs[1..], p - |bs[0].Nodes()|);
      k := j + 1;
      assert bs[k] == bs[1..][j];
    }
  }

  lemma {:induction false} StartMonotone<N>(bs: seq<Block<N>>, j: nat, k: nat)
    requires j < k <= |bs|
    ensures Start(bs, j) + |bs[j].Nodes()| <= Start(bs, k)
    decreases k - j
  {
    BlockAt(bs, j);
    if j + 1 < k {
      StartMonotone(bs, j + 1, k);
    }
  }

  /** Replacing one block replaces its nodes in place. */
  lemma {:induction false} Replace<N>(bs: seq<Block<N>>, k: nat, b: Block<N>)
    requires k < |bs|
    ensures var f, s, e := Flatten(bs), Start(bs, k), Start(bs, k) + |bs[k].Nodes()|;
            Flatten(bs[k := b]) == f[..s] + b.Nodes() + f[e..]
  {
    hide Flatten, Start;
    var cs := bs[k := b];
    FlattenCons(bs, k);
    FlattenCons(cs, k);
    if k == 0 {
      assert cs[1..] == bs[1..];
    } else {
      Replace(bs[1..], k - 1, b);
      assert cs[1..] == bs[1..][k - 1 := b];
      assert bs[1..][k - 1] == bs[k];
      var s := Start(bs[1..], k - 1);
      Exchanged(bs[0].Nodes(), Flatten(bs[1..]), s, s + |bs[k].Nodes()|, b.Nodes());
    }
  }

  lemma {:induction false} ReplaceStart<N>(bs: seq<Block<N>>, k: nat, b: Block<N>, j: nat)
    requires k < |bs| && j <= |bs|
    ensures Start(bs[k := b], j) == if j <= k then Start(bs, j) else Start(bs, j) + |b.Nodes()| - |bs[k].Nodes()|
  {
    var cs := bs[k := b];
    if j == 0 {
    } else if k == 0 {
      assert cs[1..] == bs[1..];
    } else {
      ReplaceStart(bs[1..], k - 1, b, j - 1);
      assert cs[1..] == bs[1..][k - 1 := b];
      assert bs[1..][k - 1] == bs[k];
    }
  }

  /** A complete call of a two-argument probe: `ldc.i4 a; ldc.i4 b; ldc.i8 probe; calli`. */
  predicate IsProbe<N(==)>(probes: map<int, nat>, code: map<N, Instr<N>>, s: seq<N>) {
    && |s| == 4 && (forall n :: n in s ==> n in code)
    && code[s[0]].op == CEE_LDC_I4 && code[s[0]].arg.Bits?
    && code[s[1]].op == CEE_LDC_I4 && code[s[1]].arg.Bits?
    && code[s[2]].op == CEE_LDC_I8 && code[s[2]].arg.Bits?
    && code[s[3]].op == CEE_CALLI && IsToken(code[s[3]].arg)
    && code[s[2]].arg.value in probes && probes[code[s[2]].arg.value] == 2
  }

  function EventOf<N(==)>(probes: map<int, nat>, code: map<N, Instr<N>>, s: seq<N>): Event
    requires IsProbe(probes, code, s)
  {
    Event(code[s[2]].arg.value, [code[s[0]].arg.value, code[s[1]].arg.value])
  }

  /** Straight-line code that has no effect but calls of probes. */
  predicate Neutral<N(==)>(probes: map<int, nat>, code: map<N, Instr<N>>, s: seq<N>) {
    if s == [] then true
    else if s[0] in code && code[s[0]].op == CEE_NOP then Neutral(probes, code, s[1..])
    else |s| >= 4 && IsProbe(probes, code, s[..4]) && Neutral(probes, code, s[4..])
  }

  /** The probe calls that neutral code makes. */
  function Events<N(==)>(probes: map<int, nat>, code: map<N, Instr<N>>, s: seq<N>): seq<Event>
    requires Neutral(probes, code, s)
  {
    if s == [] then []
    else if code[s[0]].op == CEE_NOP then Events(probes, code, s[1..])
    else [EventOf(probes, code, s[..4])] + Events(probes, code, s[4..])
  }

  /** The probe calls of a piece of code, none if it is not neutral. */
  function Fired<N(==)>(probes: map<int, nat>, code: map<N, Instr<N>>, s: seq<N>): seq<Event> {
    if Neutral(probes, code, s) then Events(probes, code, s) else []
  }

  lemma {:induction false} NeutralConcat<N>(probes: map<int, nat>, code: map<N, Instr<N>>, s: seq<N>, t: seq<N>)
    requires Neutral(probes, code, s) && Neutral(probes, code, t)
    ensures Neutral(probes, code, s + t)
    ensures Events(probes, code, s + t) == Events(probes, code, s) + Events(probes, code, t)
    decreases |s|
  {
    var st := s + t;
    if s == [] {
      assert st == t;
    } else if code[s[0]].op == CEE_NOP {
      NeutralConcat(probes, code, s[1..], t);
      assert st[1..] == s[1..] + t;
    } else {
      NeutralConcat(probes, code, s[4..], t);
      NeutralBehindProbe(probes, code, s, t);
    }
  }

  /** Neutral code that does not start with a `nop` starts with a probe call. */
  lemma NeutralCons<N>(probes: map<int, nat>, code: map<N, Instr<N>>, s: seq<N>)
    requires s != [] && s[0] in code && code[s[0]].op != CEE_NOP
    ensures Neutral(probes, code, s) <==> |s| >= 4 && IsProbe(probes, code, s[..4]) && Neutral(probes, code, s[4..])
    ensures Neutral(probes, code, s) ==> Events(probes, code, s) == [EventOf(probes, code, s[..4])] + Events(probes, code, s[4..])
  {
    hide IsProbe, EventOf;
  }

  lemma {:induction false} NeutralBehindProbe<N>(probes: map<int, nat>, code: map<N, Instr<N>>, s: seq<N>, t: seq<N>)
    requires Neutral(probes, code, s) && Neutral(probes, code, t) && s != [] && code[s[0]].op != CEE_NOP
    requires Neutral(probes, code, s[4..] + t) && Events(probes, code, s[4..] + t) == Events(probes, code, s[4..]) + Events(probes, code, t)
    ensures Neutral(probes, code, s + t)
    ensures Events(probes, code, s + t) == Events(probes, code, s) + Events(probes, code, t)
  {
    NeutralCons(probes, code, s);
    hide IsProbe, EventOf, Neutral, Events;
    var st := s + t;
    assert st[4..] == s[4..] + t && st[..4] == s[..4] && st[0] == s[0];
    NeutralCons(probes, code, st);
    var e := [EventOf(probes, code, s[..4])];
    assert e + (Events(probes, code, s[4..]) + Events(probes, code, t)) == e + Events(probes, code, s[4..]) + Events(probes, code, t);
  }

  /** Neutrality only depends on the instructions of the nodes themselves. */
  lemma {:induction false} NeutralFrame<N>(probes: map<int, nat>, code: map<N, Instr<N>>, code': map<N, Instr<N>>, s: seq<N>)
    requires Neutral(probes, code, s)
    requires forall n :: n in s && n in code ==> n in code' && code'[n] == code[n]
    ensures Neutral(probes, code', s) && Events(probes, code', s) == Events(probes, code, s)
    decreases |s|
  {
    if s == [] {
    } else if code[s[0]].op == CEE_NOP {
      NeutralFrame(probes, code, code', s[1..]);
    } else {
      NeutralFrame(probes, code, code', s[4..]);
      assert forall n :: n in s[..4] ==> n in s;
    }
  }

  lemma NeutralNop<N>(probes: map<int, nat>, code: map<N, Instr<N>>, n: N)
    requires n in code && code[n].op == CEE_NOP
    ensures Neutral(probes, code, [n]) && Events(probes, code, [n]) == []
  {
    assert [n][1..] == [];
  }

  lemma NeutralProbe<N>(probes: map<int, nat>, code: map<N, Instr<N>>, s: seq<N>)
    requires IsProbe(probes, code, s)
    ensures Neutral(probes, code, s) && Events(probes, code, s) == [EventOf(probes, code, s)]
  {
    assert s[..4] == s && s[4..] == [];
  }

  /** A complete call of the three-argument probe at the start of a method. */
  predicate IsEnterProbe<N(==)>(probes: map<int, nat>, code: map<N, Instr<N>>, s: seq<N>) {
    && |s| == 5 && (forall n :: n in s ==> n in code)
    && code[s[0]].op == CEE_LDC_I4 && code[s[0]].arg.Bits?
    && code[s[1]].op == CEE_LDC_I4 && code[s[1]].arg.Bits?
    && code[s[2]].op == CEE_LDC_I4_0
    && code[s[3]].op == CEE_LDC_I8 && code[s[3]].arg.Bits?
    && code[s[4]].op == CEE_CALLI && IsToken(code[s[4]].arg)
    && code[s[3]].arg.value in probes && probes[code[s[3]].arg.value] == 3
  }

  function EnterEvents<N(==)>(probes: map<int, nat>, code: map<N, Instr<N>>, s: seq<N>): seq<Event>
    requires s == [] || IsEnterProbe(probes, code, s)
  {
    if s == [] then [] else [Event(code[s[3]].arg.value, [code[s[0]].arg.value, code[s[1]].arg.value, 0])]
  }

  /** `l` is the list `l0` with a run-in `enter` in front and every original instruction grown into its block.
      - The carrier holds the instruction of the original node; what surrounds it is neutral.
      - Nothing separates a prefix from the instruction it applies to, or a `switch` from its arms.
      - Every node of a block is in the exception regions of the original instruction. */
  ghost predicate Instrumented<N>(probes: map<int, nat>, l0: Listing<N>, l: Listing<N>, enter: seq<N>, bs: seq<Block<N>>) {
    && WellFormed(l0) && WellFormed(l)
    && |bs| == |l0.order|
    && l.order == enter + Flatten(bs)
    && (enter == [] || IsEnterProbe(probes, l.code, enter))
    && SameClauses(l0, l)
    && (forall k :: 0 <= k < |bs| ==> GoodBlock(probes, l0, l, |enter|, bs, k))
  }

  /** The clauses of both lists differ in the ends of their handlers only. */
  ghost predicate SameClauses<N>(l0: Listing<N>, l: Listing<N>) {
    && l.end == l0.end && |l.clauses| == |l0.clauses|
    && (forall i :: 0 <= i < |l.clauses| ==> l.clauses[i] == l0.clauses[i].(handlerEnd := l.clauses[i].handlerEnd))
  }

  ghost predicate GoodBlock<N>(probes: map<int, nat>, l0: Listing<N>, l: Listing<N>, shift: nat, bs: seq<Block<N>>, k: nat)
    requires WellFormed(l0) && WellFormed(l) && k < |bs| == |l0.order|
  {
    var b := bs[k];
    && b.Home() == l0.order[k]
    && b.carrier in l.code && l.code[b.carrier] == l0.code[l0.order[k]]
    && Neutral(probes, l.code, b.pre) && Neutral(probes, l.code, b.post)
    && (b.pre != [] ==> MayPrecede(l0, k))
    && (b.post != [] ==> MayFollow(l0, k))
    && (forall p: nat :: shift + Start(bs, k) <= p < shift + Start(bs, k) + |b.Nodes()| ==> RegionsAt(l, p) == RegionsAt(l0, k))
  }

  /** Code may be put between the instruction at `k` and its predecessor. */
  predicate MayPrecede<N(==)>(l0: Listing<N>, k: nat)
    requires WellFormed(l0) && k < |l0.order|
  {
    && l0.code[l0.order[k]].op != CEE_SWITCH_ARG
    && (k > 0 ==> !IsPrefix(l0.code[l0.order[k - 1]].op))
  }

  /** Code may be put between the instruction at `k` and its successor. */
  predicate MayFollow<N(==)>(l0: Listing<N>, k: nat)
    requires WellFormed(l0) && k < |l0.order|
  {
    && !IsPrefix(l0.code[l0.order[k]].op)
    && l0.code[l0.order[k]].op != CEE_SWITCH
    && (l0.code[l0.order[k]].op == CEE_SWITCH_ARG && k + 1 < |l0.order| ==> l0.code[l0.order[k + 1]].op != CEE_SWITCH_ARG)
  }
}
