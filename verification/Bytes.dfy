/** Little-endian integers of a fixed number of bytes. */
module Bytes {

  type byte = b: int | 0 <= b < 256

  const TWO_TO_THE_31 := 0x8000_0000
  const TWO_TO_THE_32 := 0x1_0000_0000

  function Pow256(k: nat): (p: nat)
    ensures p >= 1
  {
    if k == 0 then 1 else 256 * Pow256(k - 1)
  }

  /** The low `k` bytes of `v`, negative values in two's complement. */
  function LE(v: int, k: nat): (b: seq<byte>)
    ensures |b| == k
    decreases k
  {
    if k == 0 then [] else [v % 256] + LE(v / 256, k - 1)
  }

  function FromLE(b: seq<byte>): (v: nat)
    ensures v < Pow256(|b|)
  {
    if b == [] then 0 else b[0] + 256 * FromLE(b[1..])
  }

  /** The value of `k` bytes read as a signed integer. */
  function Signed(v: nat, k: nat): int {
    if 2 * v < Pow256(k) then v else v - Pow256(k)
  }

  predicate InSigned(v: int, k: nat) {
    0 - Pow256(k) <= 2 * v < Pow256(k)
  }

  lemma ModUnique(v: int, m: int, q: int, r: int)
    requires m > 0 && v == m * q + r && 0 <= r < m
    ensures v % m == r && v / m == q
  {
    var d := v / m - q;
    assert m * d == r - v % m by {
      assert v == m * (v / m) + v % m;
      assert m * (v / m) - m * q == m * d;
    }
    assert d >= 1 ==> m * d >= m;
    assert d <= -1 ==> m * d <= -m;
  }

  lemma {:induction false} FromToLE(v: int, k: nat)
    ensures FromLE(LE(v, k)) == v % Pow256(k)
    decreases k
  {
    if k == 0 {
      ModUnique(v, 1, v, 0);
    } else {
      FromToLE(v / 256, k - 1);
      assert LE(v, k)[1..] == LE(v / 256, k - 1);
      var m := Pow256(k - 1);
      var w := v / 256;
      assert w == m * (w / m) + w % m;
      assert v == 256 * w + v % 256;
      calc {
        256 * w;
        256 * (m * (w / m) + w % m);
        256 * (m * (w / m)) + 256 * (w % m);
        (256 * m) * (w / m) + 256 * (w % m);
      }
      ModUnique(v, 256 * m, w / m, 256 * (w % m) + v % 256);
    }
  }

  lemma {:induction false} ToFromLE(b: seq<byte>)
    ensures LE(FromLE(b), |b|) == b
  {
    if b != [] {
      ToFromLE(b[1..]);
      ModUnique(FromLE(b), 256, FromLE(b[1..]), b[0]);
      assert b == [b[0]] + b[1..];
    }
  }

  /** Only the residue matters. */
  lemma SameResidue(v: int, w: int, k: nat)
    requires v % Pow256(k) == w % Pow256(k)
    ensures LE(v, k) == LE(w, k)
  {
    FromToLE(v, k);
    FromToLE(w, k);
    ToFromLE(LE(v, k));
    ToFromLE(LE(w, k));
  }

  lemma Congruent(v: int, m: int, q: int)
    requires m > 0
    ensures (v + m * q) % m == v % m
  {
    assert v == m * (v / m) + v % m;
    assert m * (v / m) + m * q == m * (v / m + q);
    ModUnique(v + m * q, m, v / m + q, v % m);
  }

  lemma SignedRoundTrip(v: int, k: nat)
    requires InSigned(v, k)
    ensures Signed(v % Pow256(k), k) == v
  {
    if v >= 0 { ModUnique(v, Pow256(k), 0, v); } else { ModUnique(v, Pow256(k), -1, v + Pow256(k)); }
  }

  lemma SignedBytes(b: seq<byte>)
    ensures InSigned(Signed(FromLE(b), |b|), |b|) && LE(Signed(FromLE(b), |b|), |b|) == b
  {
    hide LE, FromLE, Pow256;
    var v := FromLE(b);
    ToFromLE(b);
    Congruent(v, Pow256(|b|), -1);
    SameResidue(v - Pow256(|b|), v, |b|);
  }

  lemma Powers()
    ensures Pow256(1) == 0x100 && Pow256(4) == TWO_TO_THE_32
  {
    assert Pow256(2) == 0x1_0000 && Pow256(3) == 0x100_0000;
  }

  /** The bytes `x` stand at `o`. */
  predicate Stand(b: seq<byte>, o: nat, x: seq<byte>) {
    o + |x| <= |b| && b[o..o + |x|] == x
  }

  lemma StandTogether(b: seq<byte>, o: nat, x: seq<byte>, y: seq<byte>)
    requires o + |x| + |y| <= |b|
    ensures Stand(b, o, x + y) <==> Stand(b, o, x) && Stand(b, o + |x|, y)
  {
    var z := b[o..o + |x| + |y|];
    assert z == b[o..o + |x|] + b[o + |x|..o + |x| + |y|];
    assert z[..|x|] == b[o..o + |x|] && z[|x|..] == b[o + |x|..o + |x| + |y|];
    if Stand(b, o, x + y) { assert z[..|x|] == x && z[|x|..] == y; }
  }

  lemma StandBounds(b: seq<byte>, o: nat, x: seq<byte>)
    requires Stand(b, o, x)
    ensures o + |x| <= |b|
  {
  }
}
