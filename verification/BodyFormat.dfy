/** The bytes of a whole method body: fat header, code and exception clauses, as written by the exporter and as read by
    the runtime's method decoder.  The formats are those of ECMA-335, sections II.25.4.3 to II.25.4.6. */
module BodyFormat {
  import opened Bytes
  import opened Exporting
  import opened ExceptionClauses

  const INIT_LOCALS := 0x10
  const MORE_SECTS := 0x8
  const FAT_FORMAT := 0x3
  const HEADER_SIZE := 12
  const CLAUSE_SIZE := 24
  const SECT_EH_TABLE := 0x1
  const SECT_FAT_FORMAT := 0x40

  datatype Body = Body(flags: nat, maxStack: nat, localVarSigTok: nat, code: seq<byte>, clauses: seq<FatClause>) | NotFat

  function Align(n: nat): nat {
    (n + 3) / 4 * 4
  }

  // Reading

  function Word(b: seq<byte>, o: nat, k: nat): nat
    requires o + k <= |b|
  {
    FromLE(b[o..o + k])
  }

  function ReadClause(b: seq<byte>, o: nat): FatClause
    requires o + CLAUSE_SIZE <= |b|
  {
    FatClause(Word(b, o, 4), Word(b, o + 4, 4), Word(b, o + 8, 4), Word(b, o + 12, 4), Word(b, o + 16, 4), Word(b, o + 20, 4))
  }

  function ReadClauses(b: seq<byte>, o: nat, n: nat): seq<FatClause>
    requires o + CLAUSE_SIZE * n <= |b|
  {
    if n == 0 then [] else ReadClauses(b, o, n - 1) + [ReadClause(b, o + CLAUSE_SIZE * (n - 1))]
  }

  /** The clauses of the section at `o`, if there is one and it is a fat exception table. */
  function ReadSection(b: seq<byte>, o: nat): seq<FatClause> {
    if o + 4 > |b| || b[o] % 0x40 != SECT_EH_TABLE || b[o] / SECT_FAT_FORMAT % 2 == 0 then []
    else
      var n := Word(b, o + 1, 3) / CLAUSE_SIZE;
      if o + 4 + CLAUSE_SIZE * n > |b| then [] else ReadClauses(b, o + 4, n)
  }

  /** What the decoder makes of a body with a fat header. */
  function ReadBody(b: seq<byte>): Body {
    if |b| < HEADER_SIZE || b[0] % 8 != FAT_FORMAT || b[1] / 16 < 3 then NotFat
    else
      var start := b[1] / 16 * 4;
      var size := Word(b, 4, 4);
      if start + size > |b| then NotFat
      else Body(b[0] / INIT_LOCALS % 2 * INIT_LOCALS, Word(b, 2, 2), Word(b, 8, 4), b[start..start + size],
                if b[0] / MORE_SECTS % 2 == 0 then [] else ReadSection(b, Align(start + size)))
  }

  // Writing

  function Words(ws: seq<int>): (b: seq<byte>)
    ensures |b| == 4 * |ws|
  {
    if ws == [] then [] else Words(ws[..|ws| - 1]) + LE(ws[|ws| - 1], 4)
  }

  function ClauseWords(f: FatClause): seq<int> {
    [f.flags, f.tryOffset, f.tryLength, f.handlerOffset, f.handlerLength, f.extra]
  }

  predicate FitsWord(f: FatClause) {
    forall w :: w in ClauseWords(f) ==> 0 <= w < TWO_TO_THE_32
  }

  /** The bytes in front of `lo` and from `hi` on are the same. */
  predicate SameOutside(b: seq<byte>, b': seq<byte>, lo: nat, hi: nat) {
    lo <= hi <= |b| == |b'| && b'[..lo] == b[..lo] && b'[hi..] == b[hi..]
  }

  lemma StandOutside(b: seq<byte>, b': seq<byte>, lo: nat, hi: nat, o: nat, x: seq<byte>)
    requires SameOutside(b, b', lo, hi) && Stand(b, o, x) && (o + |x| <= lo || hi <= o)
    ensures Stand(b', o, x)
  {
    if o + |x| <= lo {
      assert b[o..o + |x|] == b[..lo][o..o + |x|] && b'[o..o + |x|] == b'[..lo][o..o + |x|];
    } else {
      assert b[o..o + |x|] == b[hi..][o - hi..o - hi + |x|] && b'[o..o + |x|] == b'[hi..][o - hi..o - hi + |x|];
    }
  }

  lemma PatchedStands(b: seq<byte>, at: nat, x: seq<byte>)
    requires at + |x| <= |b|
    ensures Stand(Patched(b, at, x), at, x) && SameOutside(b, Patched(b, at, x), at, at + |x|)
  {
  }

  lemma NextWord(ws: seq<int>, i: nat)
    requires i < |ws|
    ensures Words(ws[..i + 1]) == Words(ws[..i]) + LE(ws[i], 4)
  {
    assert ws[..i + 1][..i] == ws[..i];
  }

  lemma NoWords(b: seq<byte>, at: nat, hi: nat, ws: seq<int>)
    requires at <= hi <= |b|
    ensures Stand(b, at, Words(ws[..0])) && SameOutside(b, b, at, hi)
  {
    hide LE;
  }

  method WriteWords(buffer: array<byte>, at: nat, ws: seq<int>)
    requires at + 4 * |ws| <= buffer.Length
    modifies buffer
    ensures Stand(buffer[..], at, Words(ws)) && SameOutside(old(buffer[..]), buffer[..], at, at + 4 * |ws|)
  {
    hide LE, Stand, SameOutside, Words, Patched;
    NoWords(buffer[..], at, at + 4 * |ws|, ws);
    for i := 0 to |ws|
      invariant Stand(buffer[..], at, Words(ws[..i])) && SameOutside(old(buffer[..]), buffer[..], at, at + 4 * |ws|)
    {
      ghost var b := buffer[..];
      WriteLE(buffer, at + 4 * i, ws[i], 4);
      PatchedStands(b, at + 4 * i, LE(ws[i], 4));
      StandOutside(b, buffer[..], at + 4 * i, at + 4 * i + 4, at, Words(ws[..i]));
      StandTogether(buffer[..], at, Words(ws[..i]), LE(ws[i], 4));
      NextWord(ws, i);
      assert at <= at + 4 * i && at + 4 * i + 4 <= at + 4 * |ws|;
      Narrower(old(buffer[..]), b, buffer[..], at, at + 4 * |ws|, at + 4 * i, at + 4 * i + 4);
    }
    assert ws[..|ws|] == ws;
  }

  lemma Narrower(a: seq<byte>, b: seq<byte>, c: seq<byte>, lo: nat, hi: nat, l: nat, h: nat)
    requires SameOutside(a, b, lo, hi) && SameOutside(b, c, l, h) && lo <= l && h <= hi
    ensures SameOutside(a, c, lo, hi)
  {
    assert b[..l][..lo] == b[..lo] && c[..l][..lo] == c[..lo];
    assert b[h..][hi - h..] == b[hi..] && c[h..][hi - h..] == c[hi..];
  }

  /** Header flags, with the header size of three words in the upper bits, and the maximal stack depth. */
  function HeaderBytes(flags: nat, maxStack: nat, codeSize: nat, localVarSigTok: nat): (b: seq<byte>)
    ensures |b| == HEADER_SIZE
  {
    LE(flags + 0x3000, 2) + LE(maxStack, 2) + Words([codeSize, localVarSigTok])
  }

  function ClauseBytes(fs: seq<FatClause>): (b: seq<byte>)
    ensures |b| == CLAUSE_SIZE * |fs|
  {
    if fs == [] then [] else ClauseBytes(fs[..|fs| - 1]) + Words(ClauseWords(fs[|fs| - 1]))
  }

  function SectionBytes(fs: seq<FatClause>): (b: seq<byte>)
    ensures |b| == 4 + CLAUSE_SIZE * |fs|
  {
    [SECT_EH_TABLE + SECT_FAT_FORMAT] + LE(4 + CLAUSE_SIZE * |fs|, 3) + ClauseBytes(fs)
  }

  method WriteHeader(b: array<byte>, flags: nat, maxStack: nat, codeSize: nat, localVarSigTok: nat)
    requires b.Length >= HEADER_SIZE
    modifies b
    ensures Stand(b[..], 0, HeaderBytes(flags, maxStack, codeSize, localVarSigTok)) && SameOutside(old(b[..]), b[..], 0, HEADER_SIZE)
  {
    hide LE, Words;
    ghost var b0 := b[..];
    WriteLE(b, 0, flags + 0x3000, 2);
    ghost var b1 := b[..];
    WriteLE(b, 2, maxStack, 2);
    ghost var b2 := b[..];
    WriteWords(b, 4, [codeSize, localVarSigTok]);
    StandOutside(b1, b2, 2, 4, 0, LE(flags + 0x3000, 2));
    StandTogether(b2, 0, LE(flags + 0x3000, 2), LE(maxStack, 2));
    StandOutside(b2, b[..], 4, 12, 0, LE(flags + 0x3000, 2) + LE(maxStack, 2));
    StandTogether(b[..], 0, LE(flags + 0x3000, 2) + LE(maxStack, 2), Words([codeSize, localVarSigTok]));
    Narrower(b0, b1, b2, 0, 12, 2, 4);
    Narrower(b0, b2, b[..], 0, 12, 4, 12);
  }

  method CopyMemory(b: array<byte>, at: nat, buffer: array<byte>, n: nat)
    requires at + n <= b.Length && n <= buffer.Length && b != buffer
    modifies b
    ensures Stand(b[..], at, buffer[..n]) && SameOutside(old(b[..]), b[..], at, at + n)
  {
    for i := 0 to n
      invariant b[at..at + i] == buffer[..i] && SameOutside(old(b[..]), b[..], at, at + n)
    {
      b[at + i] := buffer[i];
    }
  }

  method WriteClauses(b: array<byte>, o: nat, fs: seq<FatClause>)
    requires o + CLAUSE_SIZE * |fs| <= b.Length
    modifies b
    ensures Stand(b[..], o, ClauseBytes(fs)) && SameOutside(old(b[..]), b[..], o, o + CLAUSE_SIZE * |fs|)
  {
    hide Words;
    for i := 0 to |fs|
      invariant Stand(b[..], o, ClauseBytes(fs[..i])) && SameOutside(old(b[..]), b[..], o, o + CLAUSE_SIZE * |fs|)
    {
      ghost var b0 := b[..];
      var at := o + CLAUSE_SIZE * i;
      WriteWords(b, at, ClauseWords(fs[i]));
      StandOutside(b0, b[..], at, at + CLAUSE_SIZE, o, ClauseBytes(fs[..i]));
      StandTogether(b[..], o, ClauseBytes(fs[..i]), Words(ClauseWords(fs[i])));
      assert fs[..i + 1][..i] == fs[..i];
      Narrower(old(b[..]), b0, b[..], o, o + CLAUSE_SIZE * |fs|, at, at + CLAUSE_SIZE);
    }
    assert fs[..|fs|] == fs;
  }

  method WriteSection(b: array<byte>, o: nat, fs: seq<FatClause>)
    requires o + 4 + CLAUSE_SIZE * |fs| <= b.Length
    modifies b
    ensures Stand(b[..], o, SectionBytes(fs))
    ensures SameOutside(old(b[..]), b[..], o, o + 4 + CLAUSE_SIZE * |fs|)
  {
    hide LE, Words;
    ghost var b0 := b[..];
    var kind: byte := SECT_EH_TABLE + SECT_FAT_FORMAT;
    b[o] := kind;
    ghost var b1 := b[..];
    assert Stand(b1, o, [kind]) && SameOutside(b0, b1, o, o + 1);
    WriteLE(b, o + 1, 4 + CLAUSE_SIZE * |fs|, 3);
    ghost var x := [kind] + LE(4 + CLAUSE_SIZE * |fs|, 3);
    assert SameOutside(b1, b[..], o + 1, o + 4);
    StandOutside(b1, b[..], o + 1, o + 4, o, [kind]);
    StandTogether(b[..], o, [kind], LE(4 + CLAUSE_SIZE * |fs|, 3));
    Narrower(b0, b1, b[..], o, o + 4 + CLAUSE_SIZE * |fs|, o + 1, o + 4);
    ghost var b2 := b[..];
    WriteClauses(b, o + 4, fs);
    StandOutside(b2, b[..], o + 4, o + 4 + CLAUSE_SIZE * |fs|, o, x);
    Narrower(b0, b2, b[..], o, o + 4 + CLAUSE_SIZE * |fs|, o + 4, o + 4 + CLAUSE_SIZE * |fs|);
    StandTogether(b[..], o, x, ClauseBytes(fs));
  }

  // What is written is what is read

  lemma WordRead(b: seq<byte>, o: nat, v: nat)
    requires Stand(b, o, LE(v, 4)) && v < TWO_TO_THE_32
    ensures Word(b, o, 4) == v
  {
    hide LE, FromLE, Pow256;
    Powers();
    FromToLE(v, 4);
    ModUnique(v, TWO_TO_THE_32, 0, v);
  }

  lemma {:induction false} WordsRead(b: seq<byte>, o: nat, ws: seq<int>, i: nat)
    requires Stand(b, o, Words(ws)) && i < |ws| && 0 <= ws[i] < TWO_TO_THE_32
    ensures o + 4 * i + 4 <= |b| && Word(b, o + 4 * i, 4) == ws[i]
  {
    hide LE, Word, Stand;
    var n := |ws| - 1;
    StandBounds(b, o, Words(ws));
    StandTogether(b, o, Words(ws[..n]), LE(ws[n], 4));
    if i == n { WordRead(b, o + 4 * i, ws[i]); } else { WordsRead(b, o, ws[..n], i); }
  }

  lemma ClauseRead(b: seq<byte>, o: nat, f: FatClause)
    requires Stand(b, o, Words(ClauseWords(f))) && FitsWord(f)
    ensures o + CLAUSE_SIZE <= |b| && ReadClause(b, o) == f
  {
    hide Words, Word;
    var ws := ClauseWords(f);
    assert forall i :: 0 <= i < 6 ==> ws[i] in ws;
    WordsRead(b, o, ws, 0);
    WordsRead(b, o, ws, 1);
    WordsRead(b, o, ws, 2);
    WordsRead(b, o, ws, 3);
    WordsRead(b, o, ws, 4);
    WordsRead(b, o, ws, 5);
  }

  lemma {:induction false} ClausesRead(b: seq<byte>, o: nat, fs: seq<FatClause>)
    requires Stand(b, o, ClauseBytes(fs)) && forall f :: f in fs ==> FitsWord(f)
    ensures o + CLAUSE_SIZE * |fs| <= |b| && ReadClauses(b, o, |fs|) == fs
  {
    hide Words, ReadClause, FitsWord;
    if fs != [] {
      var n := |fs| - 1;
      StandTogether(b, o, ClauseBytes(fs[..n]), Words(ClauseWords(fs[n])));
      ClausesRead(b, o, fs[..n]);
      ClauseRead(b, o + CLAUSE_SIZE * n, fs[n]);
      assert fs == fs[..n] + [fs[n]];
    }
  }

  lemma SectionRead(b: seq<byte>, o: nat, fs: seq<FatClause>)
    requires Stand(b, o, SectionBytes(fs)) && (forall f :: f in fs ==> FitsWord(f)) && 4 + CLAUSE_SIZE * |fs| < 0x100_0000
    ensures ReadSection(b, o) == fs
  {
    hide LE, FromLE, Pow256, ClauseBytes, FitsWord, ReadClauses;
    var kind := [SECT_EH_TABLE + SECT_FAT_FORMAT];
    var size := LE(4 + CLAUSE_SIZE * |fs|, 3);
    StandTogether(b, o, kind + size, ClauseBytes(fs));
    StandTogether(b, o, kind, size);
    assert b[o] == b[o..o + 1][0];
    FromToLE(4 + CLAUSE_SIZE * |fs|, 3);
    Pow3();
    ModUnique(4 + CLAUSE_SIZE * |fs|, 0x100_0000, 0, 4 + CLAUSE_SIZE * |fs|);
    ModUnique(4 + CLAUSE_SIZE * |fs|, CLAUSE_SIZE, |fs|, 4);
    ClausesRead(b, o + 4, fs);
  }

  lemma Pow3()
    ensures Pow256(2) == 0x1_0000 && Pow256(3) == 0x100_0000
  {
  }

  lemma HeaderRead(b: seq<byte>, flags: nat, maxStack: nat, codeSize: nat, tok: nat)
    requires Stand(b, 0, HeaderBytes(flags, maxStack, codeSize, tok)) && flags < 0x1000 && codeSize < TWO_TO_THE_32 && tok < TWO_TO_THE_32
    ensures |b| >= HEADER_SIZE && b[0] == flags % 256 && b[1] / 16 == 3
    ensures Word(b, 2, 2) == maxStack % 0x1_0000 && Word(b, 4, 4) == codeSize && Word(b, 8, 4) == tok
  {
    hide FromLE, Pow256, Words;
    StandTogether(b, 0, LE(flags + 0x3000, 2) + LE(maxStack, 2), Words([codeSize, tok]));
    StandTogether(b, 0, LE(flags + 0x3000, 2), LE(maxStack, 2));
    WordsRead(b, 4, [codeSize, tok], 0);
    WordsRead(b, 4, [codeSize, tok], 1);
    FromToLE(maxStack, 2);
    Pow3();
    var x := LE(flags + 0x3000, 2);
    assert b[0] == b[0..2][0] == x[0] && b[1] == b[0..2][1] == x[1];
    assert x[0] == (flags + 0x3000) % 256 && x[1] == (flags + 0x3000) / 256 % 256;
  }

  lemma BodyRead(b: seq<byte>, flags: nat, maxStack: nat, tok: nat, code: seq<byte>, fs: seq<FatClause>)
    requires flags == 0 || flags == INIT_LOCALS
    requires |code| < TWO_TO_THE_32 && tok < TWO_TO_THE_32
    requires 4 + CLAUSE_SIZE * |fs| < 0x100_0000 && forall f :: f in fs ==> FitsWord(f)
    requires Stand(b, 0, HeaderBytes(flags + (if fs == [] then 0 else MORE_SECTS) + FAT_FORMAT, maxStack, |code|, tok))
    requires Stand(b, HEADER_SIZE, code)
    requires fs != [] ==> Stand(b, HEADER_SIZE + Align(|code|), SectionBytes(fs))
    ensures ReadBody(b) == Body(flags, maxStack % 0x1_0000, tok, code, fs)
  {
    hide HeaderBytes, SectionBytes, FitsWord, Word, ReadSection;
    HeaderRead(b, flags + (if fs == [] then 0 else MORE_SECTS) + FAT_FORMAT, maxStack, |code|, tok);
    assert Align(HEADER_SIZE + |code|) == HEADER_SIZE + Align(|code|);
    if fs != [] { SectionRead(b, HEADER_SIZE + Align(|code|), fs); }
  }

  /** Writes a method body into memory of exactly the size it takes.  The decoder reads back what was written, except
      that the header keeps only sixteen bits of the maximal stack depth. */
  method WriteBody(flags: nat, maxStack: nat, localVarSigTok: nat, buffer: array<byte>, codeSize: nat, clauses: seq<FatClause>)
    returns (pBody: array<byte>)
    requires flags == 0 || flags == INIT_LOCALS
    requires codeSize <= buffer.Length && codeSize < TWO_TO_THE_32 && localVarSigTok < TWO_TO_THE_32
    requires 4 + CLAUSE_SIZE * |clauses| < 0x100_0000 && forall f :: f in clauses ==> FitsWord(f)
    ensures fresh(pBody)
    ensures pBody.Length == HEADER_SIZE + Align(codeSize) + (if clauses == [] then 0 else 4 + CLAUSE_SIZE * |clauses|)
    ensures ReadBody(pBody[..]) == Body(flags, maxStack % 0x1_0000, localVarSigTok, buffer[..codeSize], clauses)
  {
    hide HeaderBytes, SectionBytes, FitsWord, SameOutside, Stand, ReadBody;
    var alignedCodeSize := Align(codeSize);
    var sects := if clauses == [] then 0 else MORE_SECTS;
    pBody := new byte[HEADER_SIZE + alignedCodeSize + (if clauses == [] then 0 else 4 + CLAUSE_SIZE * |clauses|)];
    WriteHeader(pBody, flags + sects + FAT_FORMAT, maxStack, codeSize, localVarSigTok);
    ghost var b1 := pBody[..];
    ghost var header := HeaderBytes(flags + sects + FAT_FORMAT, maxStack, codeSize, localVarSigTok);
    CopyMemory(pBody, HEADER_SIZE, buffer, codeSize);
    ghost var b2 := pBody[..];
    ghost var code := buffer[..codeSize];
    StandOutside(b1, b2, HEADER_SIZE, HEADER_SIZE + codeSize, 0, header);
    if clauses != [] {
      var pEH := HEADER_SIZE + alignedCodeSize;
      WriteSection(pBody, pEH, clauses);
      StandOutside(b2, pBody[..], pEH, pEH + 4 + CLAUSE_SIZE * |clauses|, 0, header);
      StandOutside(b2, pBody[..], pEH, pEH + 4 + CLAUSE_SIZE * |clauses|, HEADER_SIZE, code);
    }
    BodyRead(pBody[..], flags, maxStack, localVarSigTok, code, clauses);
  }
}
