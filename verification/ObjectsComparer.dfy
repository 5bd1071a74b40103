/** Comparison of object graphs that may contain cycles. */
module ObjectsComparer {

  type Ref = nat

  /** What a field or an array element holds. */
  datatype Value = Null | Object(ref: Ref)

  /** Primitive values, pointers, strings and enumeration values are compared by value; everything else is an array or
      has the fields of its type, in the order of the type's field list. */
  datatype Obj =
    | Primitive(kind: int, value: int)
    | Array(kind: int, lengths: seq<nat>, lowerBounds: seq<int>, elements: seq<Value>)
    | Record(kind: int, values: seq<Value>)

  datatype FieldInfo = FieldInfo(name: string, isDelegate: bool)

  function Lower(c: char): char {
    if 'A' <= c <= 'Z' then c - 'A' + 'a' else c
  }

  function LowerAll(s: string): string {
    seq(|s|, i requires 0 <= i < |s| => Lower(s[i]))
  }

  predicate Contains(s: string, part: string) {
    |part| <= |s| && (LowerAll(s[..|part|]) == part || (|s| > 0 && Contains(s[1..], part)))
  }

  /** Delegates and thread identifiers are not compared. */
  predicate IsCompared(f: FieldInfo) {
    !f.isDelegate && !Contains(f.name, "threadid")
  }

  function Count(lengths: seq<nat>): nat {
    if lengths == [] then 1 else lengths[0] * Count(lengths[1..])
  }

  /** All objects, and the field lists of their types. */
  datatype Heap = Heap(objects: map<Ref, Obj>, fields: map<int, seq<FieldInfo>>) {

    predicate Holds(v: Value) {
      v.Object? ==> v.ref in objects
    }

    /** References lead to objects; a record has a value for every field, an array an element for every index.  The type
        tells primitive values, arrays and records apart. */
    predicate Valid() {
      && (forall r :: r in objects ==> ValidObject(objects[r]))
      && (forall r, s :: r in objects && s in objects && objects[r].kind == objects[s].kind ==> SameSort(objects[r], objects[s]))
    }

    predicate SameSort(a: Obj, b: Obj) {
      (a.Primitive? <==> b.Primitive?) && (a.Array? <==> b.Array?)
    }

    predicate ValidObject(o: Obj) {
      match o
      case Primitive(_, _) => true
      case Array(_, lengths, lowerBounds, elements) =>
        |lowerBounds| == |lengths| && |elements| == Count(lengths) && forall v :: v in elements ==> Holds(v)
      case Record(kind, values) =>
        kind in fields && |values| == |fields[kind]| && forall v :: v in values ==> Holds(v)
    }

    /** Two objects agree in everything but what they refer to. */
    predicate SameShape(a: Obj, b: Obj) {
      && a.kind == b.kind
      && SameSort(a, b)
      && (a.Primitive? ==> a.value == b.value)
      && (a.Array? ==> a.lengths == b.lengths && a.lowerBounds == b.lowerBounds)
    }

    /** The `i`-th pair of values that a comparison of two objects must look at. */
    predicate Looks(a: Obj, b: Obj, i: nat) {
      || (a.Array? && b.Array? && i < |a.elements| && i < |b.elements|)
      || (a.Record? && b.Record? && a.kind in fields && i < |fields[a.kind]| && i < |a.values| && i < |b.values| && IsCompared(fields[a.kind][i]))
    }

    function Left(a: Obj, i: nat): Value
      requires (a.Array? && i < |a.elements|) || (a.Record? && i < |a.values|)
    {
      if a.Array? then a.elements[i] else a.values[i]
    }

    predicate InRelation(x: Value, y: Value, rel: set<(Ref, Ref)>) {
      (x.Null? && y.Null?) || (x.Object? && y.Object? && (x.ref, y.ref) in rel)
    }

    /** Objects in the relation have the same type and shape, and refer to objects in the relation. */
    ghost predicate Bisimulation(rel: set<(Ref, Ref)>) {
      forall p :: p in rel ==> Matches(p, rel)
    }

    ghost predicate Matches(p: (Ref, Ref), rel: set<(Ref, Ref)>) {
      && p.0 in objects && p.1 in objects
      && SameShape(objects[p.0], objects[p.1])
      && forall i: nat :: Looks(objects[p.0], objects[p.1], i) ==> InRelation(Left(objects[p.0], i), Left(objects[p.1], i), rel)
    }

    /** No observation through compared fields and array elements tells the two values apart. */
    ghost predicate Bisimilar(x: Value, y: Value) {
      exists rel: set<(Ref, Ref)> :: Bisimulation(rel) && InRelation(x, y, rel)
    }

    /** The comparison may take the pair as equal once the pairs in `seen` are. */
    predicate Settled(x: Value, y: Value, seen: set<(Ref, Ref)>) {
      || (x.Null? && y.Null?)
      || (x.Object? && y.Object? && x.ref in objects && y.ref in objects
          && (x.ref == y.ref || (x.ref, y.ref) in seen
              || (objects[x.ref].Primitive? && SameShape(objects[x.ref], objects[y.ref]))))
    }

    /** A pair whose contents have been compared. */
    ghost predicate Checked(p: (Ref, Ref), seen: set<(Ref, Ref)>) {
      && p.0 in objects && p.1 in objects
      && SameShape(objects[p.0], objects[p.1])
      && forall i: nat :: Looks(objects[p.0], objects[p.1], i) ==> Settled(Left(objects[p.0], i), Left(objects[p.1], i), seen)
    }

    lemma CheckedMore(p: (Ref, Ref), seen: set<(Ref, Ref)>, more: set<(Ref, Ref)>)
      requires Checked(p, seen) && seen <= more
      ensures Checked(p, more)
    {
    }

    /** What bisimilar objects refer to is bisimilar. */
    lemma ContentsBisimilar(a: Ref, b: Ref, i: nat)
      requires Bisimilar(Object(a), Object(b)) && a in objects && b in objects && Looks(objects[a], objects[b], i)
      ensures Bisimilar(Left(objects[a], i), Left(objects[b], i))
    {
      var rel: set<(Ref, Ref)> :| Bisimulation(rel) && InRelation(Object(a), Object(b), rel);
      assert Matches((a, b), rel);
    }

    /** If the contents of all seen pairs have been compared, then settled values are bisimilar. */
    lemma SeenIsBisimulation(x: Value, y: Value, seen: set<(Ref, Ref)>)
      requires Valid() && Settled(x, y, seen) && Holds(x) && forall p :: p in seen ==> Checked(p, seen)
      ensures Bisimilar(x, y)
    {
      var rel := set a, b | a in objects && b in objects && Settled(Object(a), Object(b), seen) :: (a, b);
      forall p | p in rel ensures Matches(p, rel) {
        assert ValidObject(objects[p.0]);
        assert Settled(Object(p.0), Object(p.1), seen);
        if p in seen { assert Checked(p, seen); }
        forall i: nat | Looks(objects[p.0], objects[p.1], i)
          ensures InRelation(Left(objects[p.0], i), Left(objects[p.1], i), rel)
        {
          var u, v := Left(objects[p.0], i), Left(objects[p.1], i);
          assert Holds(u);
          assert Settled(u, v, seen);
        }
      }
      assert Bisimulation(rel) && InRelation(x, y, rel);
    }
  }

  class ObjectComparer {
    const heap: Heap
    var compared: set<(Ref, Ref)>

    constructor (heap: Heap)
      ensures this.heap == heap && compared == {}
    {
      this.heap, compared := heap, {};
    }

    /** All pairs of objects. */
    ghost function Pairs(): set<(Ref, Ref)> {
      set a, b | a in heap.objects && b in heap.objects :: (a, b)
    }

    /** What a comparison leaves behind when it has found no difference: every pair it has added has been checked. */
    ghost predicate Progress(before: set<(Ref, Ref)>)
      reads this
    {
      before <= compared <= Pairs() && forall p :: p in compared && p !in before ==> heap.Checked(p, compared)
    }

    method Equals(expected: Value, actual: Value) returns (equal: bool)
      requires heap.Valid() && heap.Holds(expected) && heap.Holds(actual) && compared <= Pairs()
      modifies this
      ensures equal ==> heap.Settled(expected, actual, compared) && Progress(old(compared))
      ensures !equal ==> !heap.Bisimilar(expected, actual)
      decreases Pairs() - compared, 0
    {
      if expected.Null? && actual.Null? {
        return true;
      }
      if expected.Null? || actual.Null? {
        return false;
      }
      var a, b := heap.objects[expected.ref], heap.objects[actual.ref];
      if a.kind != b.kind {
        return false;
      }
      if expected.ref == actual.ref {
        return true;
      }
      if a.Primitive? {
        return b.Primitive? && a.value == b.value;
      }
      if (expected.ref, actual.ref) in compared {
        return true;
      }
      compared := compared + {(expected.ref, actual.ref)};
      if a.Array? && b.Array? {
        equal := ContentwiseEqual(expected.ref, actual.ref);
      } else {
        equal := StructurallyEquals(expected.ref, actual.ref);
      }
    }

    /** Compares two arrays of the same type. */
    method ContentwiseEqual(expected: Ref, actual: Ref) returns (equal: bool)
      requires heap.Valid() && (expected, actual) in compared && compared <= Pairs()
      requires var a, b := heap.objects[expected], heap.objects[actual]; a.Array? && b.Array? && a.kind == b.kind
      modifies this
      ensures equal ==> heap.Checked((expected, actual), compared) && Progress(old(compared))
      ensures !equal ==> !heap.Bisimilar(Object(expected), Object(actual))
      decreases Pairs() - compared, 1
    {
      var a, b := heap.objects[expected], heap.objects[actual];
      assert heap.ValidObject(a) && heap.ValidObject(b);
      if |a.lengths| != |b.lengths| {
        return false;
      }
      for i := 0 to |a.lengths|
        invariant a.lengths[..i] == b.lengths[..i] && a.lowerBounds[..i] == b.lowerBounds[..i]
        invariant compared == old(compared)
      {
        if a.lengths[i] != b.lengths[i] || a.lowerBounds[i] != b.lowerBounds[i] {
          assert a.lengths != b.lengths || a.lowerBounds != b.lowerBounds;
          return false;
        }
      }
      assert a.lengths == b.lengths && a.lowerBounds == b.lowerBounds;
      var i := 0;
      while i < |a.elements| && i < |b.elements|
        invariant i <= |a.elements|
        invariant Progress(old(compared))
        invariant forall j: nat :: j < i ==> heap.Settled(a.elements[j], b.elements[j], compared)
        decreases |a.elements| - i
      {
        ghost var before := compared;
        assert a.elements[i] in a.elements && b.elements[i] in b.elements;
        var same := Equals(a.elements[i], b.elements[i]);
        if !same {
          Distinguished(expected, actual, i);
          return false;
        }
        ProgressMore(old(compared), before);
        i := i + 1;
      }
      return true;
    }

    /** Compares two objects field by field. */
    method StructurallyEquals(expected: Ref, actual: Ref) returns (equal: bool)
      requires heap.Valid() && (expected, actual) in compared && compared <= Pairs()
      requires var a, b := heap.objects[expected], heap.objects[actual]; a.Record? && b.Record? && a.kind == b.kind
      modifies this
      ensures equal ==> heap.Checked((expected, actual), compared) && Progress(old(compared))
      ensures !equal ==> !heap.Bisimilar(Object(expected), Object(actual))
      decreases Pairs() - compared, 1
    {
      var a, b := heap.objects[expected], heap.objects[actual];
      assert heap.ValidObject(a) && heap.ValidObject(b);
      var fields := heap.fields[a.kind];
      for i := 0 to |fields|
        invariant Progress(old(compared))
        invariant forall j: nat :: j < i && IsCompared(fields[j]) ==> heap.Settled(a.values[j], b.values[j], compared)
      {
        if IsCompared(fields[i]) {
          ghost var before := compared;
          assert a.values[i] in a.values && b.values[i] in b.values;
          var same := Equals(a.values[i], b.values[i]);
          if !same {
            Distinguished(expected, actual, i);
            return false;
          }
          ProgressMore(old(compared), before);
        }
      }
      return true;
    }

    lemma ProgressMore(start: set<(Ref, Ref)>, before: set<(Ref, Ref)>)
      requires start <= before && Progress(before) && forall p :: p in before && p !in start ==> heap.Checked(p, before)
      ensures Progress(start)
    {
      forall p | p in compared && p !in start ensures heap.Checked(p, compared) {
        if p in before { heap.CheckedMore(p, before, compared); }
      }
    }

    /** A difference in the contents is a difference of the objects. */
    lemma Distinguished(a: Ref, b: Ref, i: nat)
      requires a in heap.objects && b in heap.objects && heap.Looks(heap.objects[a], heap.objects[b], i)
      requires !heap.Bisimilar(heap.Left(heap.objects[a], i), heap.Left(heap.objects[b], i))
      ensures !heap.Bisimilar(Object(a), Object(b))
    {
      if heap.Bisimilar(Object(a), Object(b)) { heap.ContentsBisimilar(a, b, i); }
    }
  }

  /** Two values are reported equal exactly if they are bisimilar, however their objects refer to each other. */
  method AreEqual(heap: Heap, expected: Value, actual: Value) returns (equal: bool)
    requires heap.Valid() && heap.Holds(expected) && heap.Holds(actual)
    ensures equal <==> heap.Bisimilar(expected, actual)
  {
    var comparer := new ObjectComparer(heap);
    equal := comparer.Equals(expected, actual);
    if equal { heap.SeenIsBisimulation(expected, actual, comparer.compared); }
    comparer.compared := {};
  }

  // What makes two objects equal, type by type

  /** The characters are the same letter, or the same character. */
  predicate SameLetter(c: char, d: char) {
    c == d || ('A' <= c <= 'Z' && c as int + 32 == d as int) || ('A' <= d <= 'Z' && d as int + 32 == c as int)
  }

  const THREAD_ID := "threadid"

  /** The name says "threadid" from position `k` on, in any mix of cases. */
  predicate ReadsAt(name: string, k: nat) {
    k + 8 <= |name| && forall j :: 0 <= j < 8 ==> SameLetter(name[k + j], THREAD_ID[j])
  }

  ghost predicate NamesThread(name: string) {
    exists k: nat :: ReadsAt(name, k)
  }

  lemma ReadsHere(s: string)
    ensures ReadsAt(s, 0) <==> 8 <= |s| && LowerAll(s[..8]) == THREAD_ID
  {
    if 8 <= |s| {
      assert LowerAll(s[..8]) == THREAD_ID <==> forall j :: 0 <= j < 8 ==> Lower(s[j]) == THREAD_ID[j];
      forall j | 0 <= j < 8 ensures Lower(s[j]) == THREAD_ID[j] <==> SameLetter(s[j], THREAD_ID[j]) { SmallLetters(j); }
    }
  }

  lemma SmallLetters(j: nat)
    requires j < 8
    ensures 'a' <= THREAD_ID[j] <= 'z'
  {
  }

  lemma {:induction false} ContainsMeans(s: string)
    ensures Contains(s, THREAD_ID) <==> NamesThread(s)
    decreases |s|
  {
    ReadsHere(s);
    if |s| > 0 {
      ContainsMeans(s[1..]);
      if k: nat :| ReadsAt(s, k) && k > 0 { assert ReadsAt(s[1..], k - 1); }
      if k: nat :| ReadsAt(s[1..], k) { assert ReadsAt(s, k + 1); }
    }
  }

  /** All pairs of bisimilar objects, and one pair more. */
  ghost function Largest(heap: Heap, p: (Ref, Ref)): set<(Ref, Ref)> {
    set a, b | a in heap.objects && b in heap.objects && ((a, b) == p || heap.Bisimilar(Object(a), Object(b))) :: (a, b)
  }

  lemma PairBisimilar(heap: Heap, p: (Ref, Ref))
    requires heap.Valid() && p.0 in heap.objects && p.1 in heap.objects && heap.SameShape(heap.objects[p.0], heap.objects[p.1])
    requires forall i: nat :: heap.Looks(heap.objects[p.0], heap.objects[p.1], i) ==>
               heap.Bisimilar(heap.Left(heap.objects[p.0], i), heap.Left(heap.objects[p.1], i))
    ensures heap.Bisimilar(Object(p.0), Object(p.1))
  {
    var rel := Largest(heap, p);
    forall q | q in rel ensures heap.Matches(q, rel) {
      var a, b := heap.objects[q.0], heap.objects[q.1];
      if q != p {
        var r: set<(Ref, Ref)> :| heap.Bisimulation(r) && heap.InRelation(Object(q.0), Object(q.1), r);
        assert heap.Matches(q, r);
      }
      assert heap.ValidObject(a) && heap.ValidObject(b);
      forall i: nat | heap.Looks(a, b, i) ensures heap.InRelation(heap.Left(a, i), heap.Left(b, i), rel) {
        if q != p { heap.ContentsBisimilar(q.0, q.1, i); }
        RelatedValues(heap, heap.Left(a, i), heap.Left(b, i), p);
      }
    }
    assert heap.Bisimulation(rel) && p in rel;
  }

  lemma RelatedValues(heap: Heap, x: Value, y: Value, p: (Ref, Ref))
    requires heap.Bisimilar(x, y) && heap.Holds(x) && heap.Holds(y)
    ensures heap.InRelation(x, y, Largest(heap, p))
  {
  }

  lemma BisimilarShape(heap: Heap, a: Ref, b: Ref)
    requires heap.Bisimilar(Object(a), Object(b))
    ensures a in heap.objects && b in heap.objects && heap.SameShape(heap.objects[a], heap.objects[b])
  {
    var rel: set<(Ref, Ref)> :| heap.Bisimulation(rel) && heap.InRelation(Object(a), Object(b), rel);
    assert heap.Matches((a, b), rel);
  }

  /** Two records are equal exactly if they have the same type and equal values in all fields but delegates and those whose
      names say "threadid" somewhere; what these hold makes no difference. */
  lemma RecordsBisimilar(heap: Heap, a: Ref, b: Ref)
    requires heap.Valid() && a in heap.objects && b in heap.objects && heap.objects[a].Record? && heap.objects[b].Record?
    ensures var x, y := heap.objects[a], heap.objects[b];
            && x.kind in heap.fields && |x.values| == |heap.fields[x.kind]| && (x.kind == y.kind ==> |y.values| == |x.values|)
            && (heap.Bisimilar(Object(a), Object(b)) <==>
                  && x.kind == y.kind
                  && forall i :: 0 <= i < |x.values| && !heap.fields[x.kind][i].isDelegate && !NamesThread(heap.fields[x.kind][i].name) ==>
                       heap.Bisimilar(x.values[i], y.values[i]))
  {
    var x, y := heap.objects[a], heap.objects[b];
    assert heap.ValidObject(x) && heap.ValidObject(y);
    forall i | 0 <= i < |x.values| ensures IsCompared(heap.fields[x.kind][i]) <==>
                                             !heap.fields[x.kind][i].isDelegate && !NamesThread(heap.fields[x.kind][i].name) {
      ContainsMeans(heap.fields[x.kind][i].name);
    }
    if heap.Bisimilar(Object(a), Object(b)) {
      BisimilarShape(heap, a, b);
      forall i | 0 <= i < |x.values| && IsCompared(heap.fields[x.kind][i]) ensures heap.Bisimilar(x.values[i], y.values[i]) {
        heap.ContentsBisimilar(a, b, i);
      }
    } else if x.kind == y.kind && forall i :: 0 <= i < |x.values| && IsCompared(heap.fields[x.kind][i]) ==> heap.Bisimilar(x.values[i], y.values[i]) {
      PairBisimilar(heap, (a, b));
    }
  }

  /** Two arrays are equal exactly if types, lengths and lower bounds of all dimensions, and all elements are. */
  lemma ArraysBisimilar(heap: Heap, a: Ref, b: Ref)
    requires heap.Valid() && a in heap.objects && b in heap.objects && heap.objects[a].Array? && heap.objects[b].Array?
    ensures var x, y := heap.objects[a], heap.objects[b];
            && (x.lengths == y.lengths ==> |x.elements| == |y.elements|)
            && (heap.Bisimilar(Object(a), Object(b)) <==>
                  && x.kind == y.kind && x.lengths == y.lengths && x.lowerBounds == y.lowerBounds
                  && forall i :: 0 <= i < |x.elements| ==> heap.Bisimilar(x.elements[i], y.elements[i]))
  {
    var x, y := heap.objects[a], heap.objects[b];
    assert heap.ValidObject(x) && heap.ValidObject(y);
    if heap.Bisimilar(Object(a), Object(b)) {
      BisimilarShape(heap, a, b);
      forall i | 0 <= i < |x.elements| ensures heap.Bisimilar(x.elements[i], y.elements[i]) { heap.ContentsBisimilar(a, b, i); }
    } else if x.kind == y.kind && x.lengths == y.lengths && x.lowerBounds == y.lowerBounds
              && forall i :: 0 <= i < |x.elements| ==> heap.Bisimilar(x.elements[i], y.elements[i]) {
      PairBisimilar(heap, (a, b));
    }
  }

  /** Values without parts are equal exactly if they are null both, or primitive values of one type that are the same.  No
      value equals one of another sort. */
  lemma OthersBisimilar(heap: Heap, x: Value, y: Value)
    requires heap.Valid() && heap.Holds(x) && heap.Holds(y)
    ensures x.Null? || y.Null? ==> (heap.Bisimilar(x, y) <==> x == y)
    ensures x.Object? && y.Object? && heap.objects[x.ref].Primitive? ==>
              (heap.Bisimilar(x, y) <==> heap.objects[y.ref] == heap.objects[x.ref])
    ensures x.Object? && y.Object? && (heap.objects[x.ref].Record? <==> !heap.objects[y.ref].Record?) ==> !heap.Bisimilar(x, y)
  {
    if x.Object? && y.Object? {
      if heap.Bisimilar(x, y) { BisimilarShape(heap, x.ref, y.ref); }
      if heap.objects[x.ref].Primitive? && heap.objects[y.ref] == heap.objects[x.ref] { PairBisimilar(heap, (x.ref, y.ref)); }
    } else if x == y {
      Reflexive(heap, x);
    }
  }

  // Bisimilarity, and with it the comparison, is an equivalence relation

  lemma Reflexive(heap: Heap, x: Value)
    requires heap.Valid() && heap.Holds(x)
    ensures heap.Bisimilar(x, x)
  {
    heap.SeenIsBisimulation(x, x, {});
  }

  lemma Symmetric(heap: Heap, x: Value, y: Value)
    requires heap.Bisimilar(x, y)
    ensures heap.Bisimilar(y, x)
  {
    var rel: set<(Ref, Ref)> :| heap.Bisimulation(rel) && heap.InRelation(x, y, rel);
    var back := set p | p in rel :: (p.1, p.0);
    forall p | p in back ensures heap.Matches(p, back) {
      assert heap.Matches((p.1, p.0), rel);
      forall i: nat | heap.Looks(heap.objects[p.0], heap.objects[p.1], i)
        ensures heap.InRelation(heap.Left(heap.objects[p.0], i), heap.Left(heap.objects[p.1], i), back)
      {
        assert heap.Looks(heap.objects[p.1], heap.objects[p.0], i);
      }
    }
    assert heap.Bisimulation(back) && heap.InRelation(y, x, back);
  }

  lemma Transitive(heap: Heap, x: Value, y: Value, z: Value)
    requires heap.Valid() && heap.Bisimilar(x, y) && heap.Bisimilar(y, z)
    ensures heap.Bisimilar(x, z)
  {
    var r: set<(Ref, Ref)> :| heap.Bisimulation(r) && heap.InRelation(x, y, r);
    var s: set<(Ref, Ref)> :| heap.Bisimulation(s) && heap.InRelation(y, z, s);
    var rel := set p, q | p in r && q in s && p.1 == q.0 :: (p.0, q.1);
    forall e | e in rel ensures heap.Matches(e, rel) {
      var p, q :| p in r && q in s && p.1 == q.0 && e == (p.0, q.1);
      Composed(heap, p, q, r, s, rel);
    }
    if x.Object? {
      var p, q := (x.ref, y.ref), (y.ref, z.ref);
      assert p in r && q in s;
      assert (p.0, q.1) in rel;
    }
    assert heap.Bisimulation(rel) && heap.InRelation(x, z, rel);
  }

  lemma Composed(heap: Heap, p: (Ref, Ref), q: (Ref, Ref), r: set<(Ref, Ref)>, s: set<(Ref, Ref)>, rel: set<(Ref, Ref)>)
    requires heap.Valid() && heap.Matches(p, r) && heap.Matches(q, s) && p.1 == q.0
    requires forall p, q :: p in r && q in s && p.1 == q.0 ==> (p.0, q.1) in rel
    ensures heap.Matches((p.0, q.1), rel)
  {
    var a, b, c := heap.objects[p.0], heap.objects[p.1], heap.objects[q.1];
    assert heap.ValidObject(a) && heap.ValidObject(b) && heap.ValidObject(c);
    forall i: nat | heap.Looks(a, c, i) ensures heap.InRelation(heap.Left(a, i), heap.Left(c, i), rel) {
      assert heap.Looks(a, b, i) && heap.Looks(b, c, i);
      var u, v, w := heap.Left(a, i), heap.Left(b, i), heap.Left(c, i);
      if u.Object? {
        var e, f := (u.ref, v.ref), (v.ref, w.ref);
        assert e in r && f in s;
      }
    }
  }
}
