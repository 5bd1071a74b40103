/** The rewriter's insertions keep the block structure. */
module Insertion {
  import opened Opcodes
  import opened Listings
  import opened Machine
  import opened Blocks
  import opened Growth

  /** Node `j` of block `k` in the list. */
  lemma NodeAt<N>(enter: seq<N>, bs: seq<Block<N>>, k: nat, j: nat)
    requires k < |bs| && j < |bs[k].Nodes()|
    ensures (enter + Flatten(bs))[|enter| + Start(bs, k) + j] == bs[k].Nodes()[j]
  {
    BlockAt(bs, k);
    var f := Flatten(bs);
    assert f[Start(bs, k)..Start(bs, k + 1)][j] == f[Start(bs, k) + j];
  }

  lemma SpliceBlock<N>(enter: seq<N>, bs: seq<Block<N>>, k: nat, j: nat, f: seq<N>, b: Block<N>)
    requires k < |bs| && j < |bs[k].Nodes()|
    requires b.Nodes() == bs[k].Nodes()[..j + 1] + f + bs[k].Nodes()[j + 1..]
    ensures var o, p := enter + Flatten(bs), |enter| + Start(bs, k) + j;
            enter + Flatten(bs[k := b]) == o[..p + 1] + f + o[p + 1..]
  {
    hide Start, Flatten;
    var x, n, s := Flatten(bs), bs[k].Nodes(), Start(bs, k);
    Replace(bs, k, b);
    BlockAt(bs, k);
    SpliceMiddle(enter, x, n, s, j, f);
  }

  lemma SpliceMiddle<T>(a: seq<T>, x: seq<T>, n: seq<T>, s: nat, j: nat, f: seq<T>)
    requires s + |n| <= |x| && x[s..s + |n|] == n && j < |n|
    ensures var o, p := a + x, |a| + s + j;
            a + (x[..s] + (n[..j + 1] + f + n[j + 1..]) + x[s + |n|..]) == o[..p + 1] + f + o[p + 1..]
  {
    assert x[..s] + n[..j + 1] == x[..s + j + 1];
    assert n[j + 1..] + x[s + |n|..] == x[s + j + 1..];
    var o, p := a + x, |a| + s + j;
    assert o[..p + 1] == a + x[..s + j + 1];
    assert o[p + 1..] == x[s + j + 1..];
    calc {
      a + (x[..s] + (n[..j + 1] + f + n[j + 1..]) + x[s + |n|..]);
      a + (x[..s] + n[..j + 1]) + f + (n[j + 1..] + x[s + |n|..]);
    }
  }

  /** The nodes of block `i` are not those of block `k`. */
  lemma OtherNodes<N>(enter: seq<N>, bs: seq<Block<N>>, i: nat, k: nat, j: nat)
    requires Distinct(enter + Flatten(bs)) && i < |bs| && k < |bs| && i != k && j < |bs[k].Nodes()|
    ensures bs[k].Nodes()[j] !in bs[i].Nodes()
  {
    hide Start, Flatten;
    if bs[k].Nodes()[j] in bs[i].Nodes() {
      var h :| 0 <= h < |bs[i].Nodes()| && bs[i].Nodes()[h] == bs[k].Nodes()[j];
      NodeAt(enter, bs, k, j);
      NodeAt(enter, bs, i, h);
      if i < k { StartMonotone(bs, i, k); } else { StartMonotone(bs, k, i); }
      assert false;
    }
  }

  lemma EnterNodes<N>(enter: seq<N>, bs: seq<Block<N>>, k: nat, j: nat)
    requires Distinct(enter + Flatten(bs)) && k < |bs| && j < |bs[k].Nodes()|
    ensures bs[k].Nodes()[j] !in enter
  {
    hide Start, Flatten;
    NodeAt(enter, bs, k, j);
    var o := enter + Flatten(bs);
    forall i | 0 <= i < |enter| ensures enter[i] != bs[k].Nodes()[j] {
      assert o[i] == enter[i];
    }
  }

  /** The growth of block `k` behind its node `j` into block `b`. */
  ghost predicate BlockGrows<N>(probes: map<int, nat>, l0: Listing<N>, l: Listing<N>, l': Listing<N>, enter: seq<N>,
                                bs: seq<Block<N>>, k: nat, j: nat, f: seq<N>, b: Block<N>) {
    && Instrumented(probes, l0, l, enter, bs) && ClausesInside(l)
    && k < |bs| && j < |bs[k].Nodes()| && Grown(l, l', bs[k].Nodes()[j], f)
    && b.Nodes() == bs[k].Nodes()[..j + 1] + f + bs[k].Nodes()[j + 1..]
    && b.carrier in l'.code && l'.code[b.carrier] == l0.code[l0.order[k]]
    && Neutral(probes, l'.code, b.pre) && Neutral(probes, l'.code, b.post)
    && (b.pre != [] ==> MayPrecede(l0, k))
    && (b.post != [] ==> MayFollow(l0, k))
  }

  lemma GrowsAt<N>(probes: map<int, nat>, l0: Listing<N>, l: Listing<N>, l': Listing<N>, enter: seq<N>,
                   bs: seq<Block<N>>, k: nat, j: nat, f: seq<N>, b: Block<N>)
    requires BlockGrows(probes, l0, l, l', enter, bs, k, j, f, b)
    ensures bs[k].Nodes()[j] in l.order && Pos(l.order, bs[k].Nodes()[j]) == |enter| + Start(bs, k) + j
    ensures l'.order == enter + Flatten(bs[k := b])
    ensures |b.Nodes()| == |bs[k].Nodes()| + |f|
  {
    hide Start, Flatten, Pos, GoodBlock, Neutral, Distinct, EndsMoved;
    NodeAt(enter, bs, k, j);
    BlockAt(bs, k);
    PosUnique(l.order, |enter| + Start(bs, k) + j);
    SpliceBlock(enter, bs, k, j, f, b);
  }

  lemma OtherBlockGood<N>(probes: map<int, nat>, l0: Listing<N>, l: Listing<N>, l': Listing<N>, enter: seq<N>,
                          bs: seq<Block<N>>, k: nat, j: nat, f: seq<N>, b: Block<N>, i: nat)
    requires BlockGrows(probes, l0, l, l', enter, bs, k, j, f, b) && i < |bs| && i != k
    ensures GoodBlock(probes, l0, l', |enter|, bs[k := b], i)
    ensures Fired(probes, l'.code, bs[i].pre) == Fired(probes, l.code, bs[i].pre)
    ensures Fired(probes, l'.code, bs[i].post) == Fired(probes, l.code, bs[i].post)
  {
    hide Start, Flatten, Pos, Neutral, Events, EndsMoved, RegionsAt, MayPrecede, MayFollow, Distinct;
    GrowsAt(probes, l0, l, l', enter, bs, k, j, f, b);
    assert GoodBlock(probes, l0, l, |enter|, bs, i);
    BlockCode(enter, l, l', bs, i, k, j, f);
    NeutralFrame(probes, l.code, l'.code, bs[i].pre);
    NeutralFrame(probes, l.code, l'.code, bs[i].post);
    ReplaceStart(bs, k, b, i);
    if i < k { StartMonotone(bs, i, k); } else { StartMonotone(bs, k, i); }
    var t, d := bs[k].Nodes()[j], Start(bs[k := b], i) - Start(bs, i);
    forall q: nat | |enter| + Start(bs[k := b], i) <= q < |enter| + Start(bs[k := b], i) + |bs[i].Nodes()|
      ensures RegionsAt(l', q) == RegionsAt(l0, i)
    {
      GrownRegions(l, l', t, f, q);
      assert Back(q, Pos(l.order, t), |f|) == q - d;
      assert |enter| + Start(bs, i) <= q - d < |enter| + Start(bs, i) + |bs[i].Nodes()|;
    }
  }

  /** The splice leaves the instructions of the other blocks alone. */
  lemma BlockCode<N>(enter: seq<N>, l: Listing<N>, l': Listing<N>, bs: seq<Block<N>>, i: nat, k: nat, j: nat, f: seq<N>)
    requires i < |bs| && k < |bs| && i != k && j < |bs[k].Nodes()| && l.order == enter + Flatten(bs)
    requires Spliced(l, l', bs[k].Nodes()[j], f)
    ensures forall n :: n in bs[i].pre || n == bs[i].carrier || n in bs[i].post ==>
              n in l.code && n in l'.code && l'.code[n] == l.code[n]
  {
    hide Start, Flatten, Pos, Distinct;
    OtherNodes(enter, bs, i, k, j);
    forall n | n in bs[i].pre || n == bs[i].carrier || n in bs[i].post
      ensures n in l.code && n in l'.code && l'.code[n] == l.code[n]
    {
      assert n in bs[i].Nodes();
      var h :| 0 <= h < |bs[i].Nodes()| && bs[i].Nodes()[h] == n;
      NodeAt(enter, bs, i, h);
      BlockAt(bs, i);
      assert n in l.order;
    }
  }

  lemma GrownBlockGood<N>(probes: map<int, nat>, l0: Listing<N>, l: Listing<N>, l': Listing<N>, enter: seq<N>,
                          bs: seq<Block<N>>, k: nat, j: nat, f: seq<N>, b: Block<N>)
    requires BlockGrows(probes, l0, l, l', enter, bs, k, j, f, b)
    ensures GoodBlock(probes, l0, l', |enter|, bs[k := b], k)
  {
    hide Start, Flatten, Pos, Neutral, EndsMoved, RegionsAt, MayPrecede, MayFollow, Distinct;
    GrowsAt(probes, l0, l, l', enter, bs, k, j, f, b);
    assert GoodBlock(probes, l0, l, |enter|, bs, k);
    ReplaceStart(bs, k, b, k);
    var t := bs[k].Nodes()[j];
    forall q: nat | |enter| + Start(bs[k := b], k) <= q < |enter| + Start(bs[k := b], k) + |b.Nodes()|
      ensures RegionsAt(l', q) == RegionsAt(l0, k)
    {
      GrownRegions(l, l', t, f, q);
      var p := Back(q, Pos(l.order, t), |f|);
      assert |enter| + Start(bs, k) <= p < |enter| + Start(bs, k) + |bs[k].Nodes()|;
    }
  }

  /** A growth keeps the block structure, and the probe calls of the other blocks. */
  lemma GrowBlock<N>(probes: map<int, nat>, l0: Listing<N>, l: Listing<N>, l': Listing<N>, enter: seq<N>,
                     bs: seq<Block<N>>, k: nat, j: nat, f: seq<N>, b: Block<N>)
    requires BlockGrows(probes, l0, l, l', enter, bs, k, j, f, b)
    ensures Instrumented(probes, l0, l', enter, bs[k := b]) && ClausesInside(l')
    ensures forall i :: 0 <= i < |bs| && i != k ==>
              && Fired(probes, l'.code, bs[i].pre) == Fired(probes, l.code, bs[i].pre)
              && Fired(probes, l'.code, bs[i].post) == Fired(probes, l.code, bs[i].post)
  {
    hide Start, Flatten, Pos, Fired, GoodBlock, RegionsAt, MayPrecede, MayFollow, Distinct, ClauseInside;
    GrowsAt(probes, l0, l, l', enter, bs, k, j, f, b);
    GrownClausesInside(l, l', bs[k].Nodes()[j], f);
    var cs := bs[k := b];
    forall i | 0 <= i < |cs|
      ensures GoodBlock(probes, l0, l', |enter|, cs, i)
      ensures i != k ==> Fired(probes, l'.code, bs[i].pre) == Fired(probes, l.code, bs[i].pre)
      ensures i != k ==> Fired(probes, l'.code, bs[i].post) == Fired(probes, l.code, bs[i].post)
    {
      if i == k {
        GrownBlockGood(probes, l0, l, l', enter, bs, k, j, f, b);
      } else {
        OtherBlockGood(probes, l0, l, l', enter, bs, k, j, f, b, i);
      }
    }
    EnterNodes(enter, bs, k, j);
    EnterCode(probes, l, l', enter, Flatten(bs), bs[k].Nodes()[j], f);
  }

  lemma EnterCode<N>(probes: map<int, nat>, l: Listing<N>, l': Listing<N>, enter: seq<N>, rest: seq<N>, t: N, f: seq<N>)
    requires l.order == enter + rest && Spliced(l, l', t, f) && t !in enter
    requires enter == [] || IsEnterProbe(probes, l.code, enter)
    ensures enter == [] || IsEnterProbe(probes, l'.code, enter)
  {
    hide Pos;
    assert forall n :: n in enter ==> n in l.order;
  }

  // ---------- The insertions the rewriter makes ----------

  /** `ldc.i4 offset; ldc.i4 methodId; ldc.i8 probe; calli`. */
  ghost predicate IsCallOf<N>(code: map<N, Instr<N>>, s: seq<N>, e: Event) {
    && |s| == 4 && |e.args| == 2 && (forall i :: 0 <= i < 4 ==> s[i] in code)
    && code[s[0]] == Instr(CEE_LDC_I4, Bits(e.args[0]))
    && code[s[1]] == Instr(CEE_LDC_I4, Bits(e.args[1]))
    && code[s[2]] == Instr(CEE_LDC_I8, Bits(e.probe))
    && code[s[3]].op == CEE_CALLI && IsToken(code[s[3]].arg)
  }

  /** A probe in front of the instruction at `t`: `t` becomes a `nop` that branches still reach, the last new node a
      copy of the instruction. */
  ghost predicate ProbedBefore<N>(l: Listing<N>, l': Listing<N>, t: N, f: seq<N>, e: Event) {
    && Grown(l, l', t, f) && |f| == 5 && IsCallOf(l'.code, f[..4], e)
    && t in l'.code && l'.code[t].op == CEE_NOP
    && f[4] in l'.code && l'.code[f[4]] == l.code[t]
  }

  /** A probe behind the instruction at `t`, followed by a `nop`. */
  ghost predicate ProbedAfter<N>(l: Listing<N>, l': Listing<N>, t: N, f: seq<N>, e: Event) {
    && Grown(l, l', t, f) && |f| == 5 && IsCallOf(l'.code, f[..4], e)
    && t in l'.code && l'.code[t] == l.code[t]
    && f[4] in l'.code && l'.code[f[4]].op == CEE_NOP
  }

  /** A `tail.` prefix moved to a new node behind its old one. */
  ghost predicate TailMoved<N>(l: Listing<N>, l': Listing<N>, t: N, n: N) {
    && Grown(l, l', t, [n])
    && t in l'.code && l'.code[t].op == CEE_NOP
    && n in l'.code && l'.code[n] == l.code[t]
  }

  ghost predicate IsProbeEvent(probes: map<int, nat>, e: Event) {
    e.probe in probes && probes[e.probe] == 2 && |e.args| == 2
  }

  lemma CallFires<N>(probes: map<int, nat>, code: map<N, Instr<N>>, s: seq<N>, e: Event)
    requires IsProbeEvent(probes, e) && IsCallOf(code, s, e)
    ensures Neutral(probes, code, s) && Fired(probes, code, s) == [e]
  {
    assert IsProbe(probes, code, s);
    NeutralProbe(probes, code, s);
    assert EventOf(probes, code, s) == e;
  }

  lemma FiredConcat<N>(probes: map<int, nat>, code: map<N, Instr<N>>, s: seq<N>, t: seq<N>)
    requires Neutral(probes, code, s) && Neutral(probes, code, t)
    ensures Neutral(probes, code, s + t)
    ensures Fired(probes, code, s + t) == Fired(probes, code, s) + Fired(probes, code, t)
  {
    NeutralConcat(probes, code, s, t);
  }

  /** A `nop`, new neutral code, and what followed the `nop`. */
  lemma NopThen<N>(probes: map<int, nat>, code: map<N, Instr<N>>, n: N, s: seq<N>, t: seq<N>)
    requires n in code && code[n].op == CEE_NOP && Neutral(probes, code, s) && Neutral(probes, code, t)
    ensures Neutral(probes, code, [n] + s + t)
    ensures Fired(probes, code, [n] + s + t) == Fired(probes, code, s) + Fired(probes, code, t)
  {
    hide Neutral, Fired;
    SingleNop(probes, code, n);
    FiredConcat(probes, code, s, t);
    FiredConcat(probes, code, [n], s + t);
    assert [n] + (s + t) == [n] + s + t;
    assert [] + (Fired(probes, code, s) + Fired(probes, code, t)) == Fired(probes, code, s) + Fired(probes, code, t);
  }

  lemma SingleNop<N>(probes: map<int, nat>, code: map<N, Instr<N>>, n: N)
    requires n in code && code[n].op == CEE_NOP
    ensures Neutral(probes, code, [n]) && Fired(probes, code, [n]) == []
  {
    NeutralNop(probes, code, n);
  }

  lemma NopTail<N>(probes: map<int, nat>, code: map<N, Instr<N>>, s: seq<N>)
    requires s != [] && Neutral(probes, code, s) && s[0] in code && code[s[0]].op == CEE_NOP
    ensures Neutral(probes, code, s[1..]) && Fired(probes, code, s[1..]) == Fired(probes, code, s)
  {
  }

  /** The part of a block that does not contain `t` keeps its instructions. */
  lemma FrameApart<N>(probes: map<int, nat>, l: Listing<N>, l': Listing<N>, t: N, f: seq<N>, s: seq<N>)
    requires Spliced(l, l', t, f) && t !in s && Neutral(probes, l.code, s)
    requires forall n :: n in s ==> n in l.order
    ensures Neutral(probes, l'.code, s) && Fired(probes, l'.code, s) == Fired(probes, l.code, s)
  {
    hide Pos;
    NeutralFrame(probes, l.code, l'.code, s);
  }

  /** The nodes of a block are nodes of the list, and each occurs once. */
  lemma InBlock<N>(probes: map<int, nat>, l0: Listing<N>, l: Listing<N>, enter: seq<N>, bs: seq<Block<N>>, k: nat)
    requires Instrumented(probes, l0, l, enter, bs) && k < |bs|
    ensures forall n :: n in bs[k].Nodes() ==> n in l.order
    ensures Distinct(bs[k].Nodes())
  {
    hide Start, Flatten, GoodBlock;
    var ns := bs[k].Nodes();
    forall n | n in ns ensures n in l.order {
      var h :| 0 <= h < |ns| && ns[h] == n;
      NodeAt(enter, bs, k, h);
      BlockAt(bs, k);
    }
    forall i, j | 0 <= i < j < |ns| ensures ns[i] != ns[j] {
      NodeAt(enter, bs, k, i);
      NodeAt(enter, bs, k, j);
      BlockAt(bs, k);
    }
  }

  /** A block before and after a growth: what it fires changes as stated. */
  ghost predicate FiresAs<N>(probes: map<int, nat>, l: Listing<N>, b: Block<N>, pre: seq<Event>, post: seq<Event>) {
    Fired(probes, l.code, b.pre) == pre && Fired(probes, l.code, b.post) == post
  }

  /** The block is sound in itself; the part of `GoodBlock` that growing a block works with. */
  lemma Sound<N>(probes: map<int, nat>, l0: Listing<N>, l: Listing<N>, enter: seq<N>, bs: seq<Block<N>>, k: nat)
    requires Instrumented(probes, l0, l, enter, bs) && k < |bs|
    ensures var b := bs[k];
            && b.carrier in l.code && l.code[b.carrier] == l0.code[l0.order[k]]
            && Neutral(probes, l.code, b.pre) && Neutral(probes, l.code, b.post)
            && (b.pre != [] ==> MayPrecede(l0, k)) && (b.post != [] ==> MayFollow(l0, k))
  {
    hide Flatten, Neutral, RegionsAt;
    assert GoodBlock(probes, l0, l, |enter|, bs, k);
  }

  lemma ApartInBlock<N>(b: Block<N>, j: nat)
    requires Distinct(b.Nodes()) && j < |b.Nodes()|
    ensures j >= |b.pre| ==> b.Nodes()[j] !in b.pre
    ensures j <= |b.pre| ==> b.Nodes()[j] !in b.post
    ensures j < |b.pre| ==> b.Nodes()[j] != b.carrier
    ensures j == 0 && b.pre != [] ==> b.Nodes()[0] !in b.pre[1..]
  {
    var ns := b.Nodes();
    assert ns[|b.pre|] == b.carrier;
    forall i | 0 <= i < |b.pre| && i != j ensures b.pre[i] != ns[j] { assert ns[i] == b.pre[i]; }
    forall i | 0 <= i < |b.post| && i + |b.pre| + 1 != j ensures b.post[i] != ns[j] { assert ns[i + |b.pre| + 1] == b.post[i]; }
  }

  /** A probe in front of the carrier. */
  lemma BeforeCarrier<N>(probes: map<int, nat>, l0: Listing<N>, l: Listing<N>, l': Listing<N>, enter: seq<N>,
                         bs: seq<Block<N>>, k: nat, f: seq<N>, e: Event)
    returns (b: Block<N>)
    requires Instrumented(probes, l0, l, enter, bs) && ClausesInside(l) && k < |bs|
    requires ProbedBefore(l, l', bs[k].carrier, f, e) && IsProbeEvent(probes, e) && MayPrecede(l0, k)
    ensures BlockGrows(probes, l0, l, l', enter, bs, k, |bs[k].pre|, f, b)
    ensures FiresAs(probes, l', b, Fired(probes, l.code, bs[k].pre) + [e], Fired(probes, l.code, bs[k].post))
    ensures b.pre != [] && b.Home() == bs[k].Home() && (bs[k].pre == [] ==> b.pre[0] == bs[k].carrier) && (bs[k].pre != [] ==> b.pre[0] == bs[k].pre[0])
    ensures b.carrier in f
  {
    hide Flatten, Neutral, Fired, GoodBlock, Distinct, Start, Pos, EndsMoved;
    var o := bs[k];
    var t := o.carrier;
    InBlock(probes, l0, l, enter, bs, k);
    Sound(probes, l0, l, enter, bs, k);
    ApartInBlock(o, |o.pre|);
    FrameApart(probes, l, l', t, f, o.pre);
    FrameApart(probes, l, l', t, f, o.post);
    CallFires(probes, l'.code, f[..4], e);
    SingleNop(probes, l'.code, t);
    FiredConcat(probes, l'.code, o.pre, [t]);
    FiredConcat(probes, l'.code, o.pre + [t], f[..4]);
    b := Block(o.pre + [t] + f[..4], f[4], o.post);
    assert f == f[..4] + [f[4]];
    assert o.Nodes()[..|o.pre| + 1] == o.pre + [t] && o.Nodes()[|o.pre| + 1..] == o.post;
    assert b.Nodes() == o.Nodes()[..|o.pre| + 1] + f + o.Nodes()[|o.pre| + 1..];
  }

  /** A probe behind the carrier. */
  lemma AfterCarrier<N>(probes: map<int, nat>, l0: Listing<N>, l: Listing<N>, l': Listing<N>, enter: seq<N>,
                        bs: seq<Block<N>>, k: nat, f: seq<N>, e: Event)
    returns (b: Block<N>)
    requires Instrumented(probes, l0, l, enter, bs) && ClausesInside(l) && k < |bs|
    requires ProbedAfter(l, l', bs[k].carrier, f, e) && IsProbeEvent(probes, e) && MayFollow(l0, k)
    ensures BlockGrows(probes, l0, l, l', enter, bs, k, |bs[k].pre|, f, b)
    ensures FiresAs(probes, l', b, Fired(probes, l.code, bs[k].pre), [e] + Fired(probes, l.code, bs[k].post))
    ensures b.pre == bs[k].pre && b.carrier == bs[k].carrier
  {
    hide Flatten, Neutral, Fired, GoodBlock, Distinct, Start, Pos, EndsMoved;
    var o := bs[k];
    var t := o.carrier;
    InBlock(probes, l0, l, enter, bs, k);
    Sound(probes, l0, l, enter, bs, k);
    ApartInBlock(o, |o.pre|);
    FrameApart(probes, l, l', t, f, o.pre);
    FrameApart(probes, l, l', t, f, o.post);
    NeutralInsert(probes, l'.code, f, e);
    FiredConcat(probes, l'.code, f, o.post);
    b := Block(o.pre, t, f + o.post);
    assert o.Nodes()[..|o.pre| + 1] == o.pre + [t] && o.Nodes()[|o.pre| + 1..] == o.post;
    assert b.Nodes() == o.Nodes()[..|o.pre| + 1] + f + o.Nodes()[|o.pre| + 1..];
  }

  /** A probe before or behind the `nop` a block starts with. */
  lemma AtLandingNop<N>(probes: map<int, nat>, l0: Listing<N>, l: Listing<N>, l': Listing<N>, enter: seq<N>,
                        bs: seq<Block<N>>, k: nat, f: seq<N>, e: Event)
    returns (b: Block<N>)
    requires Instrumented(probes, l0, l, enter, bs) && ClausesInside(l) && k < |bs| && bs[k].pre != []
    requires bs[k].pre[0] in l.code && l.code[bs[k].pre[0]].op == CEE_NOP && IsProbeEvent(probes, e)
    requires ProbedBefore(l, l', bs[k].pre[0], f, e) || ProbedAfter(l, l', bs[k].pre[0], f, e)
    ensures BlockGrows(probes, l0, l, l', enter, bs, k, 0, f, b)
    ensures FiresAs(probes, l', b, [e] + Fired(probes, l.code, bs[k].pre), Fired(probes, l.code, bs[k].post))
    ensures b.pre != [] && b.pre[0] == bs[k].pre[0] && b.carrier == bs[k].carrier
  {
    hide Flatten, Neutral, Fired, GoodBlock, Distinct, Start, Pos, EndsMoved, Spliced, IsCallOf, MayPrecede, MayFollow;
    var o := bs[k];
    var t := o.pre[0];
    assert o.Nodes()[0] == t;
    InBlock(probes, l0, l, enter, bs, k);
    Sound(probes, l0, l, enter, bs, k);
    ApartInBlock(o, 0);
    FrameTail(probes, l, l', t, f, o);
    NeutralInsert(probes, l'.code, f, e);
    NopThen(probes, l'.code, t, f, o.pre[1..]);
    b := Block([t] + f + o.pre[1..], o.carrier, o.post);
    HeadNodes(o, f);
  }

  lemma HeadNodes<N>(o: Block<N>, f: seq<N>)
    requires o.pre != []
    ensures Block([o.pre[0]] + f + o.pre[1..], o.carrier, o.post).Nodes() == o.Nodes()[..1] + f + o.Nodes()[1..]
  {
    assert o.Nodes()[..1] == [o.pre[0]] && o.Nodes()[1..] == o.pre[1..] + [o.carrier] + o.post;
  }

  /** What a splice behind the landing `nop` leaves of the block. */
  lemma FrameTail<N>(probes: map<int, nat>, l: Listing<N>, l': Listing<N>, t: N, f: seq<N>, o: Block<N>)
    requires Spliced(l, l', t, f) && o.pre != [] && t == o.pre[0] && t in l.code && l.code[t].op == CEE_NOP
    requires Neutral(probes, l.code, o.pre) && Neutral(probes, l.code, o.post)
    requires forall n :: n in o.Nodes() ==> n in l.order
    requires t !in o.pre[1..] && t !in o.post && t != o.carrier
    ensures Neutral(probes, l'.code, o.pre[1..]) && Fired(probes, l'.code, o.pre[1..]) == Fired(probes, l.code, o.pre)
    ensures Neutral(probes, l'.code, o.post) && Fired(probes, l'.code, o.post) == Fired(probes, l.code, o.post)
    ensures o.carrier in l'.code && o.carrier in l.code && l'.code[o.carrier] == l.code[o.carrier]
  {
    hide Neutral, Fired, Pos, Distinct;
    NopTail(probes, l.code, o.pre);
    assert o.carrier in o.Nodes();
    assert forall n :: n in o.pre[1..] ==> n in o.pre;
    FrameApart(probes, l, l', t, f, o.pre[1..]);
    FrameApart(probes, l, l', t, f, o.post);
  }

  lemma NeutralInsert<N>(probes: map<int, nat>, code: map<N, Instr<N>>, f: seq<N>, e: Event)
    requires |f| == 5 && IsCallOf(code, f[..4], e) && IsProbeEvent(probes, e) && f[4] in code && code[f[4]].op == CEE_NOP
    ensures Neutral(probes, code, f) && Fired(probes, code, f) == [e]
  {
    hide Neutral, Fired;
    CallFires(probes, code, f[..4], e);
    SingleNop(probes, code, f[4]);
    FiredConcat(probes, code, f[..4], [f[4]]);
    assert f == f[..4] + [f[4]] && [e] + [] == [e];
  }

  /** Moving a `tail.` prefix to a new node. */
  lemma TailBlock<N>(probes: map<int, nat>, l0: Listing<N>, l: Listing<N>, l': Listing<N>, enter: seq<N>,
                     bs: seq<Block<N>>, k: nat, n: N)
    returns (b: Block<N>)
    requires Instrumented(probes, l0, l, enter, bs) && ClausesInside(l) && k < |bs|
    requires TailMoved(l, l', bs[k].carrier, n) && MayPrecede(l0, k)
    ensures BlockGrows(probes, l0, l, l', enter, bs, k, |bs[k].pre|, [n], b)
    ensures FiresAs(probes, l', b, Fired(probes, l.code, bs[k].pre), Fired(probes, l.code, bs[k].post))
    ensures b == Block(bs[k].pre + [bs[k].carrier], n, bs[k].post)
  {
    hide Flatten, Neutral, Fired, GoodBlock, Distinct, Start, Pos, EndsMoved;
    var o := bs[k];
    var t := o.carrier;
    InBlock(probes, l0, l, enter, bs, k);
    Sound(probes, l0, l, enter, bs, k);
    ApartInBlock(o, |o.pre|);
    FrameApart(probes, l, l', t, [n], o.pre);
    FrameApart(probes, l, l', t, [n], o.post);
    SingleNop(probes, l'.code, t);
    FiredConcat(probes, l'.code, o.pre, [t]);
    assert Fired(probes, l'.code, o.pre) + [] == Fired(probes, l'.code, o.pre);
    b := Block(o.pre + [t], n, o.post);
    assert o.Nodes()[..|o.pre| + 1] == o.pre + [t] && o.Nodes()[|o.pre| + 1..] == o.post;
    assert b.Nodes() == o.Nodes()[..|o.pre| + 1] + [n] + o.Nodes()[|o.pre| + 1..];
  }

  /** `l'` is `l` with the nodes `f` put in front of everything. */
  ghost predicate Prepended<N>(l: Listing<N>, l': Listing<N>, f: seq<N>) {
    && WellFormed(l) && WellFormed(l')
    && l'.order == f + l.order && l'.end == l.end && l'.clauses == l.clauses
    && (forall n :: n in l.order ==> l'.code[n] == l.code[n])
  }

  lemma PrependedPlace<N>(l: Listing<N>, l': Listing<N>, f: seq<N>, n: N)
    requires Prepended(l, l', f) && (n in l.order || n == l.end)
    ensures Place(l', n) == |f| + Place(l, n)
  {
    hide Pos;
    if n in l.order {
      assert l'.order[|f| + Pos(l.order, n)] == n;
      PosUnique(l'.order, |f| + Pos(l.order, n));
    }
  }

  lemma PrependedRegions<N>(l: Listing<N>, l': Listing<N>, f: seq<N>, q: nat)
    requires Prepended(l, l', f) && ClausesInside(l)
    ensures RegionsAt(l', |f| + q) == RegionsAt(l, q)
  {
    hide Place, WellFormed;
    forall i | 0 <= i < |l.clauses|
      ensures InTry(l', l'.clauses[i], |f| + q) <==> InTry(l, l.clauses[i], q)
      ensures InFilter(l', l'.clauses[i], |f| + q) <==> InFilter(l, l.clauses[i], q)
      ensures InHandler(l', l'.clauses[i], |f| + q) <==> InHandler(l, l.clauses[i], q)
    {
      var c := l.clauses[i];
      assert ClauseInside(l, c);
      PrependedPlace(l, l', f, c.tryBegin);
      PrependedPlace(l, l', f, c.tryEnd);
      PrependedPlace(l, l', f, c.handlerBegin);
      PrependedPlace(l, l', f, c.handlerEnd);
      if c.kind.Filtered? { PrependedPlace(l, l', f, c.kind.filter); }
    }
    RegionsFromClauses(l, q, l', |f| + q);
  }

  lemma PrependedInside<N>(l: Listing<N>, l': Listing<N>, f: seq<N>)
    requires Prepended(l, l', f) && ClausesInside(l)
    ensures ClausesInside(l')
  {
    forall i | 0 <= i < |l'.clauses| ensures ClauseInside(l', l'.clauses[i]) {
      assert ClauseInside(l, l.clauses[i]);
    }
  }

  /** The probe at the start of the method comes before all blocks. */
  lemma EnterBlocks<N>(probes: map<int, nat>, l0: Listing<N>, l: Listing<N>, l': Listing<N>, bs: seq<Block<N>>, f: seq<N>)
    requires Instrumented(probes, l0, l, [], bs) && ClausesInside(l)
    requires Prepended(l, l', f) && IsEnterProbe(probes, l'.code, f)
    ensures Instrumented(probes, l0, l', f, bs) && ClausesInside(l')
    ensures forall i :: 0 <= i < |bs| ==>
              && Fired(probes, l'.code, bs[i].pre) == Fired(probes, l.code, bs[i].pre)
              && Fired(probes, l'.code, bs[i].post) == Fired(probes, l.code, bs[i].post)
  {
    hide Flatten, Start, GoodBlock, Fired, IsEnterProbe, Distinct, RegionsAt;
    assert [] + Flatten(bs) == Flatten(bs);
    PrependedInside(l, l', f);
    forall i | 0 <= i < |bs|
      ensures GoodBlock(probes, l0, l', |f|, bs, i)
      ensures Fired(probes, l'.code, bs[i].pre) == Fired(probes, l.code, bs[i].pre)
      ensures Fired(probes, l'.code, bs[i].post) == Fired(probes, l.code, bs[i].post)
    {
      EnterBlock(probes, l0, l, l', bs, f, i);
    }
  }

  lemma EnterBlock<N>(probes: map<int, nat>, l0: Listing<N>, l: Listing<N>, l': Listing<N>, bs: seq<Block<N>>, f: seq<N>, i: nat)
    requires Instrumented(probes, l0, l, [], bs) && ClausesInside(l) && Prepended(l, l', f) && i < |bs|
    ensures GoodBlock(probes, l0, l', |f|, bs, i)
    ensures Fired(probes, l'.code, bs[i].pre) == Fired(probes, l.code, bs[i].pre)
    ensures Fired(probes, l'.code, bs[i].post) == Fired(probes, l.code, bs[i].post)
  {
    hide Flatten, Start, Neutral, Events, IsEnterProbe, Distinct, RegionsAt, MayPrecede, MayFollow;
    assert GoodBlock(probes, l0, l, 0, bs, i);
    InBlock(probes, l0, l, [], bs, i);
    var b := bs[i];
    forall n | n in b.pre || n == b.carrier || n in b.post ensures n in l.order { assert n in b.Nodes(); }
    NeutralFrame(probes, l.code, l'.code, b.pre);
    NeutralFrame(probes, l.code, l'.code, b.post);
    forall q: nat | |f| + Start(bs, i) <= q < |f| + Start(bs, i) + |b.Nodes()|
      ensures RegionsAt(l', q) == RegionsAt(l0, i)
    {
      PrependedRegions(l, l', f, q - |f|);
    }
  }
}
