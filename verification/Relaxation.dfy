/** Branch relaxation: short branches that do not reach their target are replaced by long ones until all reach. */
module Relaxation {
  import opened Bytes
  import opened Opcodes
  import opened Listings
  import opened Codec

  /** The distance a branch has to bridge. */
  function Delta(c: Code, i: nat): int
    requires Targeted(c) && i < |c| && c[i].arg.Target?
  {
    Off(c, c[i].arg.node) - Off(c, i + 1)
  }

  predicate TooFar(c: Code, i: nat)
    requires Targeted(c) && i < |c|
  {
    IsShortBranch(c[i].op) && c[i].arg.Target? && !InSigned(Delta(c, i), 1)
  }

  predicate Fits(c: Code)
    requires Targeted(c)
  {
    forall i :: 0 <= i < |c| ==> !TooFar(c, i)
  }

  /** `d` is `c` with some of its short branches made long. */
  predicate Wider(c: Code, d: Code) {
    |c| == |d| && forall i :: 0 <= i < |c| ==> WiderAt(c, d, i)
  }

  predicate WiderAt(c: Code, d: Code, i: nat)
    requires i < |c| && |c| == |d|
  {
    d[i] == c[i] || (IsShortBranch(c[i].op) && d[i] == Instr(Widen(c[i].op), c[i].arg))
  }

  /** One retry: every branch that is too short for the layout at hand becomes long. */
  function Widened(c: Code): (d: Code)
    requires Targeted(c)
    ensures Wider(c, d)
  {
    seq(|c|, i requires 0 <= i < |c| => if TooFar(c, i) then Instr(Widen(c[i].op), c[i].arg) else c[i])
  }

  function Shorts(c: Code): nat {
    if c == [] then 0 else (if IsShortBranch(c[0].op) then 1 else 0) + Shorts(c[1..])
  }

  lemma {:induction false} FewerShorts(c: Code, d: Code, k: nat)
    requires Wider(c, d)
    ensures Shorts(d) <= Shorts(c)
    ensures k < |c| && d[k] != c[k] ==> Shorts(d) < Shorts(c)
    decreases |c|
  {
    if c != [] {
      assert WiderAt(c, d, 0);
      forall i | 0 <= i < |c| - 1 ensures WiderAt(c[1..], d[1..], i) {
        var j := i + 1;
        assert WiderAt(c, d, j);
      }
      FewerShorts(c[1..], d[1..], if k == 0 then 0 else k - 1);
    }
  }

  lemma WiderTargets(c: Code, d: Code)
    requires Wider(c, d) && Targeted(c)
    ensures Targeted(d)
  {
    forall i | 0 <= i < |d| && d[i].arg.Target? ensures d[i].arg.node <= |d| && Starts(d, d[i].arg.node) {
      assert WiderAt(c, d, i);
      if d[i].arg.node < |d| { assert WiderAt(c, d, d[i].arg.node); }
    }
  }

  /** Relaxation ends: every retry makes at least one short branch long, and none is ever made short again. */
  function Relaxed(c: Code): (d: Code)
    requires Targeted(c)
    ensures Targeted(d) && Wider(c, d) && Fits(d)
    decreases Shorts(c)
  {
    if Fits(c) then c
    else
      var i: nat :| i < |c| && TooFar(c, i);
      var d := Widened(c);
      FewerShorts(c, d, i);
      WiderTargets(c, d);
      WiderTwice(c, d, Relaxed(d));
      Relaxed(d)
  }

  lemma WiderTwice(c: Code, d: Code, e: Code)
    requires Wider(c, d) && Wider(d, e)
    ensures Wider(c, e)
  {
    forall i | 0 <= i < |c| ensures WiderAt(c, e, i) {
      assert WiderAt(c, d, i) && WiderAt(d, e, i);
    }
  }

  /** Widening only moves instructions apart. */
  lemma {:induction false} Apart(c: Code, d: Code, i: nat, j: nat)
    requires Wider(c, d) && i <= j <= |c|
    ensures 0 <= Off(c, j) - Off(c, i) <= Off(d, j) - Off(d, i)
    decreases j - i
  {
    if i < j {
      Apart(c, d, i, j - 1);
      assert WiderAt(c, d, j - 1);
    }
  }

  /** A branch that does not reach its target will not reach it in any wider layout. */
  lemma StillTooFar(c: Code, d: Code, i: nat)
    requires Wider(c, d) && Targeted(c) && Targeted(d) && i < |c| && TooFar(c, i)
    ensures d[i] == c[i] ==> TooFar(d, i)
  {
    var t := c[i].arg.node;
    if t <= i + 1 { Apart(c, d, t, i + 1); } else { Apart(c, d, i + 1, t); }
  }

  /** Relaxation widens no more than it must: whatever layout all of whose short branches reach, it has made long every
      branch that relaxation makes long. */
  lemma {:induction false} RelaxedIsLeast(c: Code, d: Code)
    requires Targeted(c) && Targeted(d) && Wider(c, d) && Fits(d)
    ensures Wider(Relaxed(c), d)
    decreases Shorts(c)
  {
    hide Delta, Targeted;
    if !Fits(c) {
      var k: nat :| k < |c| && TooFar(c, k);
      var w := Widened(c);
      WiderTargets(c, w);
      forall i | 0 <= i < |c| ensures WiderAt(w, d, i) {
        assert WiderAt(c, d, i);
        if TooFar(c, i) { StillTooFar(c, d, i); }
      }
      FewerShorts(c, w, k);
      RelaxedIsLeast(w, d);
    }
  }

  lemma WiderShape(c: Code, d: Code)
    requires Wider(c, d) && Shaped(c)
    ensures Shaped(d)
  {
    hide InSigned, IsEncodable, OperandSize;
    forall i | 0 <= i < |d| ensures d[i].op == c[i].op || (IsShortBranch(c[i].op) && d[i].op == Widen(c[i].op)) { assert WiderAt(c, d, i); }
    forall i | 0 <= i < |d| ensures ShapedAt(d, i) {
      assert ShapedAt(c, i) && WiderAt(c, d, i);
      if d[i] != c[i] { WidenEncodable(c[i].op); }
    }
  }

  lemma WidenEncodable(op: int)
    requires IsShortBranch(op)
    ensures IsEncodable(Widen(op)) && IsLongBranch(Widen(op)) && Size(Widen(op)) == Size(op) + 3
  {
  }

  /** No layout outgrows the buffer of ten bytes per instruction. */
  lemma {:induction false} SizeBound(c: Code, i: nat)
    requires i <= |c|
    ensures Off(c, i) <= 10 * i && (i > 0 ==> Off(c, i) < 10 * i)
  {
    if i > 0 { SizeBound(c, i - 1); }
  }

  lemma CanonicalWider(c: Code, d: Code)
    requires Shaped(c) && Canonical(c) && Wider(c, d)
    ensures Canonical(d)
  {
    hide InSigned;
    forall i | 0 <= i < |d| ensures CanonicalAt(d[i]) { assert CanonicalAt(c[i]) && WiderAt(c, d, i) && ShapedAt(c, i); }
  }

  /** The code that the exporter writes for an instruction list: relaxed, it can be encoded, and the decoder gives it
      back, every branch with the same target. */
  lemma RelaxedExportable(c: Code)
    requires Shaped(c) && Targeted(c) && 10 * |c| < TWO_TO_THE_31
    ensures Exportable(Relaxed(c)) && Decode(Encode(Relaxed(c))) == Decoded(Normal(Relaxed(c)))
    ensures Canonical(c) ==> Normal(Relaxed(c)) == Relaxed(c)
  {
    hide InSigned;
    var d := Relaxed(c);
    WiderShape(c, d);
    SizeBound(d, |d|);
    PlacedShape(d);
    forall i | 0 <= i < |d| ensures Reaches(Placed(d), i) {
      assert ShapedAt(d, i) && !TooFar(d, i);
    }
    DecodeEncode(d);
    if Canonical(c) { CanonicalWider(c, d); }
  }

  /** An unedited body needs no relaxation: it is exported as the bytes it was imported from. */
  lemma ImportedBytesUnchanged(b: seq<byte>)
    requires |b| < TWO_TO_THE_31 && Decode(b).Decoded?
    ensures Shaped(Decode(b).code) && Targeted(Decode(b).code)
    ensures var c := Decode(b).code; Relaxed(c) == c && Encode(Relaxed(c)) == b
  {
    hide InSigned, Decode;
    EncodeDecode(b);
    var c := Decode(b).code;
    PlacedShape(c);
    forall i | 0 <= i < |c| ensures !TooFar(c, i) {
      assert ShapedAt(c, i) && Reaches(Placed(c), i);
    }
  }
}
