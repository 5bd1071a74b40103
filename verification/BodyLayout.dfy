/** Which bytes of a method body hold its header, its code and its exception clauses (sections II.25.4.3 to II.25.4.6 of
    ECMA-335). */
module BodyLayout {
  import opened Bytes
  import opened ExceptionClauses
  import opened BodyFormat
  import opened CodeLayout

  lemma WordAt(b: seq<byte>, o: nat)
    requires o + 4 <= |b|
    ensures Word(b, o, 4) == Unsigned4(b, o)
  {
    hide FromLE, Signed;
    FourAt(b, o);
  }

  lemma TwoAt(b: seq<byte>, o: nat)
    requires o + 2 <= |b|
    ensures Word(b, o, 2) == b[o] as int + 0x100 * (b[o + 1] as int)
  {
    var x := b[o..o + 2];
    assert x[1..][1..] == [] && FromLE(x[1..]) == x[1];
  }

  /** A clause: flags, the try block, the handler, and the class token or the offset of the filter. */
  predicate ClauseAt(b: seq<byte>, o: nat, f: FatClause) {
    && o + 24 <= |b|
    && f.flags == Unsigned4(b, o) && f.tryOffset == Unsigned4(b, o + 4) && f.tryLength == Unsigned4(b, o + 8)
    && f.handlerOffset == Unsigned4(b, o + 12) && f.handlerLength == Unsigned4(b, o + 16) && f.extra == Unsigned4(b, o + 20)
  }

  lemma ClauseIsAt(b: seq<byte>, o: nat)
    requires o + CLAUSE_SIZE <= |b|
    ensures ClauseAt(b, o, ReadClause(b, o))
  {
    hide Word, Unsigned4;
    WordAt(b, o);
    WordAt(b, o + 4);
    WordAt(b, o + 8);
    WordAt(b, o + 12);
    WordAt(b, o + 16);
    WordAt(b, o + 20);
  }

  lemma {:induction false} ClausesAt(b: seq<byte>, o: nat, n: nat, i: nat)
    requires o + CLAUSE_SIZE * n <= |b| && i < n
    ensures |ReadClauses(b, o, n)| == n && ClauseAt(b, o + 24 * i, ReadClauses(b, o, n)[i])
  {
    hide ReadClause, ClauseAt;
    ClauseIsAt(b, o + CLAUSE_SIZE * (n - 1));
    ClauseCount(b, o, n - 1);
    if i < n - 1 { ClausesAt(b, o, n - 1, i); }
  }

  lemma {:induction false} ClauseCount(b: seq<byte>, o: nat, n: nat)
    requires o + CLAUSE_SIZE * n <= |b|
    ensures |ReadClauses(b, o, n)| == n
  {
    if n > 0 { ClauseCount(b, o, n - 1); }
  }

  /** What the decoder makes of a body stands in its bytes: flags, stack depth, size and local signature in the header, the
      code behind it, and the clauses behind the next multiple of four. */
  lemma FieldsAt(b: seq<byte>, i: nat)
    requires ReadBody(b).Body?
    ensures var r := ReadBody(b); |b| >= 12 && b[0] % 8 == 3
    ensures var r := ReadBody(b);
            && r.flags == (if b[0] / 16 % 2 == 1 then 16 else 0) && r.maxStack == b[2] as int + 0x100 * (b[3] as int)
            && r.localVarSigTok == Unsigned4(b, 8) && |r.code| == Unsigned4(b, 4)
    ensures var r, start := ReadBody(b), 4 * (b[1] as int / 16);
            start + |r.code| <= |b| && r.code == b[start..start + |r.code|]
    ensures var r, end := ReadBody(b), 4 * (b[1] as int / 16) + |ReadBody(b).code|;
            i < |r.clauses| ==>
              var o := if end % 4 == 0 then end else end - end % 4 + 4;
              && b[0] / 8 % 2 == 1 && o + 4 <= |b| && b[o] % 64 == 1 && b[o] / 64 % 2 == 1
              && |r.clauses| == (b[o + 1] as int + 0x100 * (b[o + 2] as int) + 0x1_0000 * (b[o + 3] as int)) / 24
              && ClauseAt(b, o + 4 + 24 * i, r.clauses[i])
  {
    hide Word, Unsigned4, ReadSection, ClauseAt, Align;
    TwoAt(b, 2);
    WordAt(b, 4);
    WordAt(b, 8);
    var end: nat := 4 * (b[1] as int / 16) + |ReadBody(b).code|;
    Aligned(end);
    if i < |ReadBody(b).clauses| { SectionAt(b, Align(end), i); }
  }

  lemma Aligned(n: nat)
    ensures Align(n) == if n % 4 == 0 then n else n - n % 4 + 4
  {
  }

  lemma SectionAt(b: seq<byte>, o: nat, i: nat)
    requires i < |ReadSection(b, o)|
    ensures o + 4 <= |b| && b[o] % 64 == 1 && b[o] / 64 % 2 == 1
    ensures |ReadSection(b, o)| == (b[o + 1] as int + 0x100 * (b[o + 2] as int) + 0x1_0000 * (b[o + 3] as int)) / 24
    ensures ClauseAt(b, o + 4 + 24 * i, ReadSection(b, o)[i])
  {
    hide Word, ReadClauses, ClauseAt;
    ThreeAt(b, o + 1);
    var n := Word(b, o + 1, 3) / CLAUSE_SIZE;
    ClauseCount(b, o + 4, n);
    ClausesAt(b, o + 4, n, i);
  }

  lemma ThreeAt(b: seq<byte>, o: nat)
    requires o + 3 <= |b|
    ensures Word(b, o, 3) == b[o] as int + 0x100 * (b[o + 1] as int) + 0x1_0000 * (b[o + 2] as int)
  {
    var x := b[o..o + 3];
    assert x[1..][1..] == x[2..] && x[2..][1..] == [];
    assert FromLE(x[2..]) == x[2] && FromLE(x[1..]) == x[1] as int + 256 * (x[2] as int);
  }
}
