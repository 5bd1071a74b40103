/** Directed graphs as sets of edges: paths, cycles, and cycles of a quotient. */
module Digraph {

  type Graph<N(==)> = set<(N, N)>

  /** A path of `n` edges from `a` to `b` whose inner nodes stay outside `avoid`. */
  ghost predicate Path<N>(g: Graph<N>, a: N, b: N, avoid: set<N>, n: nat)
    decreases n
  {
    if n == 0 then false
    else if n == 1 then (a, b) in g
    else exists e :: e in g && e.0 == a && e.1 !in avoid && Path(g, e.1, b, avoid, n - 1)
  }

  ghost predicate Reaches<N>(g: Graph<N>, a: N, b: N, avoid: set<N>) {
    exists n: nat :: Path(g, a, b, avoid, n)
  }

  /** `r` lies on a cycle. */
  ghost predicate OnCycle<N>(g: Graph<N>, r: N) {
    Reaches(g, r, r, {})
  }

  ghost predicate Cyclic<N>(g: Graph<N>) {
    exists e :: e in g && OnCycle(g, e.0)
  }

  lemma CycleIsCyclic<N>(g: Graph<N>, r: N, n: nat)
    requires Path(g, r, r, {}, n)
    ensures Cyclic(g)
  {
    var e :| e in g && e.0 == r;
    assert OnCycle(g, e.0);
  }

  lemma {:induction false} AvoidLess<N>(g: Graph<N>, a: N, b: N, avoid: set<N>, less: set<N>, n: nat)
    requires Path(g, a, b, avoid, n) && less <= avoid
    ensures Path(g, a, b, less, n)
    decreases n
  {
    if n > 1 {
      var e :| e in g && e.0 == a && e.1 !in avoid && Path(g, e.1, b, avoid, n - 1);
      AvoidLess(g, e.1, b, avoid, less, n - 1);
    }
  }

  /** A path either avoids `x` as well, or its last piece is a shorter path from `x`. */
  lemma {:induction false} AvoidOrPass<N>(g: Graph<N>, a: N, b: N, avoid: set<N>, x: N, n: nat) returns (m: nat)
    requires Path(g, a, b, avoid, n)
    ensures m <= n
    ensures m == n ==> Path(g, a, b, avoid + {x}, n)
    ensures m < n ==> Path(g, x, b, avoid, m)
    decreases n
  {
    m := n;
    if n > 1 {
      var e :| e in g && e.0 == a && e.1 !in avoid && Path(g, e.1, b, avoid, n - 1);
      if e.1 == x {
        m := n - 1;
      } else {
        m := AvoidOrPass(g, e.1, b, avoid, x, n - 1);
        if m == n - 1 { m := n; }
      }
    }
  }

  /** A path need not return to where it starts. */
  lemma {:induction false} NoReturn<N>(g: Graph<N>, a: N, b: N, avoid: set<N>, n: nat)
    requires Path(g, a, b, avoid, n)
    ensures Reaches(g, a, b, avoid + {a})
    decreases n
  {
    var m := AvoidOrPass(g, a, b, avoid, a, n);
    if m < n { NoReturn(g, a, b, avoid, m); }
  }

  /** What a search from `a` that must not use `avoid` has to look at: the successors of `a`. */
  lemma ReachesByStep<N>(g: Graph<N>, a: N, b: N, avoid: set<N>)
    requires a in avoid
    ensures Reaches(g, a, b, avoid) <==>
              (a, b) in g || exists e :: e in g && e.0 == a && e.1 !in avoid && Reaches(g, e.1, b, avoid + {e.1})
  {
    if Reaches(g, a, b, avoid) && (a, b) !in g {
      var n: nat :| Path(g, a, b, avoid, n);
      var e :| e in g && e.0 == a && e.1 !in avoid && Path(g, e.1, b, avoid, n - 1);
      NoReturn(g, e.1, b, avoid, n - 1);
    }
    if (a, b) in g { assert Path(g, a, b, avoid, 1); }
    if exists e :: e in g && e.0 == a && e.1 !in avoid && Reaches(g, e.1, b, avoid + {e.1}) {
      var e :| e in g && e.0 == a && e.1 !in avoid && Reaches(g, e.1, b, avoid + {e.1});
      var n: nat :| Path(g, e.1, b, avoid + {e.1}, n);
      AvoidLess(g, e.1, b, avoid + {e.1}, avoid, n);
      assert Path(g, a, b, avoid, n + 1);
    }
  }

  lemma OnCycleAvoiding<N>(g: Graph<N>, r: N)
    ensures OnCycle(g, r) <==> Reaches(g, r, r, {r})
  {
    if OnCycle(g, r) {
      var n: nat :| Path(g, r, r, {}, n);
      NoReturn(g, r, r, {}, n);
      assert {} + {r} == {r};
    }
    if Reaches(g, r, r, {r}) {
      var n: nat :| Path(g, r, r, {r}, n);
      AvoidLess(g, r, r, {r}, {}, n);
    }
  }

  lemma {:induction false} Append<N>(g: Graph<N>, a: N, b: N, c: N, n: nat)
    requires Path(g, a, b, {}, n) && (b, c) in g
    ensures Path(g, a, c, {}, n + 1)
    decreases n
  {
    if n == 1 {
      var e := (a, b);
      assert e in g && Path(g, e.1, c, {}, 1);
    } else {
      var e :| e in g && e.0 == a && Path(g, e.1, b, {}, n - 1);
      Append(g, e.1, b, c, n - 1);
    }
  }

  lemma {:induction false} MoreEdges<N>(g: Graph<N>, h: Graph<N>, a: N, b: N, n: nat)
    requires g <= h && Path(g, a, b, {}, n)
    ensures Path(h, a, b, {}, n)
    decreases n
  {
    if n > 1 {
      var e :| e in g && e.0 == a && Path(g, e.1, b, {}, n - 1);
      MoreEdges(g, h, e.1, b, n - 1);
    }
  }

  // Walks, for the pigeonhole argument

  predicate Walk<N(==)>(g: Graph<N>, p: seq<N>) {
    forall i :: 0 <= i < |p| - 1 ==> (p[i], p[i + 1]) in g
  }

  lemma {:induction false} WalkPath<N>(g: Graph<N>, p: seq<N>)
    requires Walk(g, p) && |p| >= 2
    ensures Path(g, p[0], p[|p| - 1], {}, |p| - 1)
  {
    if |p| > 2 {
      WalkPath(g, p[1..]);
      var e := (p[0], p[1]);
      assert e in g && Path(g, e.1, p[|p| - 1], {}, |p| - 2);
    }
  }

  /** `x` has a successor in `s`. */
  ghost predicate Continues<N>(g: Graph<N>, s: set<N>, x: N) {
    exists e :: e in g && e.0 == x && e.1 in s
  }

  lemma {:induction false} LongWalk<N>(g: Graph<N>, s: set<N>, a: N, n: nat) returns (p: seq<N>)
    requires a in s && forall x :: x in s ==> Continues(g, s, x)
    ensures |p| == n + 1 && Walk(g, p) && p[0] == a && forall x :: x in p ==> x in s
    decreases n
  {
    hide Continues;
    if n == 0 {
      p := [a];
    } else {
      var e := Successor(g, s, a);
      var q := LongWalk(g, s, e.1, n - 1);
      p := [a] + q;
      assert forall i :: 0 < i < |p| - 1 ==> (q[i - 1], q[i]) in g;
    }
  }

  lemma Successor<N>(g: Graph<N>, s: set<N>, x: N) returns (e: (N, N))
    requires Continues(g, s, x)
    ensures e in g && e.0 == x && e.1 in s
  {
    e :| e in g && e.0 == x && e.1 in s;
  }

  lemma {:induction false} Pigeonhole<N>(p: seq<N>, s: set<N>)
    requires |p| > |s| && forall x :: x in p ==> x in s
    ensures exists i, j :: 0 <= i < j < |p| && p[i] == p[j]
  {
    if p[0] in p[1..] {
      var j :| 0 <= j < |p| - 1 && p[1..][j] == p[0];
      assert p[0] == p[j + 1];
    } else {
      Pigeonhole(p[1..], s - {p[0]});
      var i, j :| 0 <= i < j < |p| - 1 && p[1..][i] == p[1..][j];
      assert p[i + 1] == p[j + 1];
    }
  }

  /** In a finite set of nodes each of which has a successor in the set, there is a cycle. */
  lemma SuccessorsCycle<N>(g: Graph<N>, s: set<N>)
    requires s != {} && forall x :: x in s ==> Continues(g, s, x)
    ensures Cyclic(g)
  {
    hide Continues;
    var a :| a in s;
    var p := LongWalk(g, s, a, |s|);
    Pigeonhole(p, s);
    var i, j :| 0 <= i < j < |p| && p[i] == p[j];
    WalkPath(g, p[i..j + 1]);
    CycleIsCyclic(g, p[i], j - i);
  }

  // Quotients

  /** Every node belongs to one class. */
  predicate IsPartition<N(==)>(part: map<N, set<N>>) {
    forall a :: a in part ==> a in part[a] && forall b :: b in part[a] ==> b in part && part[b] == part[a]
  }

  predicate Over<N(==)>(g: Graph<N>, part: map<N, set<N>>) {
    forall e :: e in g ==> e.0 in part && e.1 in part
  }

  function Quotient<N(==)>(g: Graph<N>, part: map<N, set<N>>): Graph<set<N>>
    requires Over(g, part)
  {
    set e | e in g :: (part[e.0], part[e.1])
  }

  /** `n` is `g` with every node given the edges of its whole class. */
  ghost predicate Normalizes<N>(n: Graph<N>, g: Graph<N>, part: map<N, set<N>>)
    requires Over(g, part)
  {
    && Over(n, part) && g <= n
    && (forall e :: e in n ==> FromClass(g, part, e))
    && (forall f, a :: f in g && a in part[f.0] ==> Has(n, a, f.1))
  }

  predicate Has<N(==)>(n: Graph<N>, a: N, b: N) {
    (a, b) in n
  }

  ghost predicate FromClass<N>(g: Graph<N>, part: map<N, set<N>>, e: (N, N))
    requires Over(g, part) && e.0 in part
  {
    exists f :: f in g && f.0 in part[e.0] && f.1 == e.1
  }

  lemma EdgeOfClass<N>(n: Graph<N>, g: Graph<N>, part: map<N, set<N>>, a: N, c: N) returns (f: (N, N))
    requires Over(g, part) && Normalizes(n, g, part) && (a, c) in n
    ensures a in part && c in part && f in g && f.0 in part[a] && f.1 == c
  {
    hide Has;
    assert FromClass(g, part, (a, c));
    f :| f in g && f.0 in part[a] && f.1 == c;
  }

  lemma ClassEdge<N>(g: Graph<N>, part: map<N, set<N>>, e: (N, N)) returns (f: (N, N))
    requires Over(g, part) && e.0 in part && FromClass(g, part, e)
    ensures f in g && f.0 in part[e.0] && f.1 == e.1
  {
    f :| f in g && f.0 in part[e.0] && f.1 == e.1;
  }

  lemma NormalizesFromClass<N>(n: Graph<N>, g: Graph<N>, part: map<N, set<N>>)
    requires Over(g, part) && Normalizes(n, g, part)
    ensures Over(n, part) && forall e :: e in n ==> FromClass(g, part, e)
  {
  }

  lemma ClassHasEdge<N>(n: Graph<N>, g: Graph<N>, part: map<N, set<N>>, f: (N, N), a: N)
    requires Over(g, part) && Normalizes(n, g, part) && f in g && a in part[f.0]
    ensures (a, f.1) in n
  {
    hide FromClass;
    assert Has(n, a, f.1);
  }

  lemma {:induction false} PathToClasses<N>(n: Graph<N>, g: Graph<N>, part: map<N, set<N>>, a: N, b: N, k: nat)
    requires IsPartition(part) && Over(g, part) && Over(n, part) && (forall e :: e in n ==> FromClass(g, part, e))
    requires Path(n, a, b, {}, k)
    ensures a in part && b in part && Path(Quotient(g, part), part[a], part[b], {}, k)
    decreases k
  {
    hide FromClass;
    var c := b;
    if k > 1 {
      var e :| e in n && e.0 == a && Path(n, e.1, b, {}, k - 1);
      c := e.1;
      PathToClasses(n, g, part, c, b, k - 1);
    }
    var f := ClassEdge(g, part, (a, c));
    var q := (part[a], part[c]);
    assert q == (part[f.0], part[f.1]) && q in Quotient(g, part);
  }

  lemma {:induction false} PathFromClasses<N>(n: Graph<N>, g: Graph<N>, part: map<N, set<N>>, s: set<N>, t: set<N>, a: N, k: nat)
    returns (b: N)
    requires IsPartition(part) && Over(g, part) && Normalizes(n, g, part) && Path(Quotient(g, part), s, t, {}, k) && a in s
    ensures b in t && Path(n, a, b, {}, k)
    decreases k
  {
    hide Normalizes;
    var q := (s, t);
    if k > 1 {
      q :| q in Quotient(g, part) && q.0 == s && Path(Quotient(g, part), q.1, t, {}, k - 1);
    }
    var f :| f in g && q == (part[f.0], part[f.1]);
    ClassHasEdge(n, g, part, f, a);
    b := f.1;
    if k > 1 {
      b := PathFromClasses(n, g, part, q.1, t, f.1, k - 1);
      var e := (a, f.1);
      assert e in n && Path(n, e.1, b, {}, k - 1);
    }
  }

  /** Giving every member of a class the edges of the whole class makes the cycles among classes visible, and adds no
      others. */
  lemma NormalizedCycles<N>(n: Graph<N>, g: Graph<N>, part: map<N, set<N>>)
    requires IsPartition(part) && Over(g, part) && Normalizes(n, g, part)
    ensures Cyclic(n) <==> Cyclic(Quotient(g, part))
  {
    hide Normalizes;
    if Cyclic(n) {
      var e :| e in n && OnCycle(n, e.0);
      var k: nat :| Path(n, e.0, e.0, {}, k);
      NormalizesFromClass(n, g, part);
      PathToClasses(n, g, part, e.0, e.0, k);
      CycleIsCyclic(Quotient(g, part), part[e.0], k);
    }
    if Cyclic(Quotient(g, part)) {
      var q :| q in Quotient(g, part) && OnCycle(Quotient(g, part), q.0);
      var k: nat :| Path(Quotient(g, part), q.0, q.0, {}, k);
      var f :| f in g && q == (part[f.0], part[f.1]);
      var b := PathFromClasses(n, g, part, q.0, q.0, f.0, k);
      CloseInClass(n, g, part, f.0, b, k);
    }
  }

  /** A cycle shows among the classes. */
  lemma CycleInQuotient<N>(g: Graph<N>, part: map<N, set<N>>, a: N)
    requires IsPartition(part) && Over(g, part) && OnCycle(g, a)
    ensures Cyclic(Quotient(g, part))
  {
    var k: nat :| Path(g, a, a, {}, k);
    forall e | e in g ensures FromClass(g, part, e) { assert e.0 in part[e.0]; }
    PathToClasses(g, g, part, a, a, k);
    CycleIsCyclic(Quotient(g, part), part[a], k);
  }

  lemma CloseInClass<N>(n: Graph<N>, g: Graph<N>, part: map<N, set<N>>, a: N, b: N, k: nat)
    requires IsPartition(part) && Over(g, part) && Normalizes(n, g, part)
    requires Path(n, a, b, {}, k) && a in part && b in part[a]
    ensures Cyclic(n)
  {
    hide Normalizes;
    var c := b;
    if k > 1 {
      var e :| e in n && e.0 == a && Path(n, e.1, b, {}, k - 1);
      c := e.1;
    }
    var f := EdgeOfClass(n, g, part, a, c);
    ClassHasEdge(n, g, part, f, b);
    if k == 1 {
      assert Path(n, b, b, {}, 1);
      CycleIsCyclic(n, b, 1);
    } else {
      Append(n, c, b, c, k - 1);
      CycleIsCyclic(n, c, k);
    }
  }
}
