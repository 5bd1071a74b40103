/** Lock types, and the groups of types that must share a level. */
module CrstTypes {
  import opened Digraph

  const CRST_UNORDERED := -1
  const CRST_UNASSIGNED := -2

  class CrstType {
    const name: string
    var level: int
    /** The types that may be acquired while this one is held. */
    var acquiredBefore: seq<CrstType>
    var group: CrstTypeGroup?
    var defined: bool

    constructor (name: string)
      ensures this.name == name && level == CRST_UNASSIGNED && acquiredBefore == [] && group == null && !defined
    {
      this.name := name;
      level, acquiredBefore, group, defined := CRST_UNASSIGNED, [], null, false;
    }
  }

  class CrstTypeGroup {
    var members: seq<CrstType>

    constructor ()
      ensures members == []
    {
      members := [];
    }
  }

  predicate NoDuplicates<T(==)>(s: seq<T>) {
    forall i, j :: 0 <= i < j < |s| ==> s[i] != s[j]
  }

  /** `s` without the first occurrence of `x`. */
  function Remove<T(==)>(s: seq<T>, x: T): (r: seq<T>)
    ensures forall y :: y in s && y != x ==> y in r
    ensures forall y :: y in r ==> y in s
  {
    if s == [] then [] else if s[0] == x then s[1..] else [s[0]] + Remove(s[1..], x)
  }

  lemma {:induction false} RemoveOnce<T>(s: seq<T>, x: T)
    requires NoDuplicates(s)
    ensures NoDuplicates(Remove(s, x)) && x !in Remove(s, x)
  {
    if s != [] {
      var t := s[1..];
      forall i, j | 0 <= i < j < |t| ensures t[i] != t[j] { assert t[i] == s[i + 1] && t[j] == s[j + 1]; }
      forall y | y in t ensures y != s[0] {
        var i :| 0 <= i < |t| && t[i] == y;
        assert y == s[i + 1];
      }
      RemoveOnce(t, x);
      if s[0] != x {
        var r := Remove(t, x);
        forall i, j | 0 <= i < j < |r| + 1 ensures ([s[0]] + r)[i] != ([s[0]] + r)[j] {
          if i > 0 { assert r[i - 1] != r[j - 1]; } else { assert r[j - 1] in t; }
        }
      }
    }
  }

  // Declared pairs

  /** The pairs read in both directions. */
  function BothWays<N(==)>(pairs: set<(N, N)>): Graph<N> {
    pairs + set p | p in pairs :: (p.1, p.0)
  }

  predicate Mentioned<N(==)>(pairs: set<(N, N)>, a: N) {
    exists p :: p in pairs && (p.0 == a || p.1 == a)
  }

  /** The declared pairs connect `a` and `b`. */
  ghost predicate Joined<N>(pairs: set<(N, N)>, a: N, b: N) {
    a == b || Reaches(BothWays(pairs), a, b, {})
  }

  lemma {:induction false} Concat<N>(g: Graph<N>, a: N, b: N, c: N, n: nat, m: nat)
    requires Path(g, a, b, {}, n) && Path(g, b, c, {}, m)
    ensures Path(g, a, c, {}, n + m)
    decreases n
  {
    if n == 1 {
      var e := (a, b);
      assert e in g && Path(g, e.1, c, {}, m);
    } else {
      var e :| e in g && e.0 == a && Path(g, e.1, b, {}, n - 1);
      Concat(g, e.1, b, c, n - 1, m);
    }
  }

  lemma {:induction false} Backwards<N>(pairs: set<(N, N)>, a: N, b: N, n: nat)
    requires Path(BothWays(pairs), a, b, {}, n)
    ensures Path(BothWays(pairs), b, a, {}, n)
    decreases n
  {
    var g := BothWays(pairs);
    if n == 1 {
      var e := (a, b);
      assert e in pairs || (b, a) in pairs;
      assert (b, a) in g;
    } else {
      var e :| e in g && e.0 == a && Path(g, e.1, b, {}, n - 1);
      Backwards(pairs, e.1, b, n - 1);
      assert (e.0, e.1) in pairs || (e.1, e.0) in pairs;
      assert (e.1, a) in g;
      Append(g, b, e.1, a, n - 1);
    }
  }

  lemma JoinedSymmetric<N>(pairs: set<(N, N)>, a: N, b: N)
    requires Joined(pairs, a, b)
    ensures Joined(pairs, b, a)
  {
    if a != b {
      var n: nat :| Path(BothWays(pairs), a, b, {}, n);
      Backwards(pairs, a, b, n);
    }
  }

  lemma JoinedTransitive<N>(pairs: set<(N, N)>, a: N, b: N, c: N)
    requires Joined(pairs, a, b) && Joined(pairs, b, c)
    ensures Joined(pairs, a, c)
  {
    if a != b && b != c {
      var n: nat :| Path(BothWays(pairs), a, b, {}, n);
      var m: nat :| Path(BothWays(pairs), b, c, {}, m);
      Concat(BothWays(pairs), a, b, c, n, m);
    }
  }

  lemma JoinedMore<N>(pairs: set<(N, N)>, more: set<(N, N)>, a: N, b: N)
    requires Joined(pairs, a, b) && pairs <= more
    ensures Joined(more, a, b)
  {
    if a != b {
      var n: nat :| Path(BothWays(pairs), a, b, {}, n);
      MoreEdges(BothWays(pairs), BothWays(more), a, b, n);
    }
  }

  lemma JoinedPair<N>(pairs: set<(N, N)>, a: N, b: N)
    requires (a, b) in pairs
    ensures Joined(pairs, a, b)
  {
    assert Path(BothWays(pairs), a, b, {}, 1);
  }

  /** Labels that agree on every pair agree on whatever the pairs connect. */
  lemma {:induction false} LabelsAgree<N, L>(pairs: set<(N, N)>, tag: map<N, L>, a: N, b: N, n: nat)
    requires forall p :: p in pairs ==> p.0 in tag && p.1 in tag && tag[p.0] == tag[p.1]
    requires Path(BothWays(pairs), a, b, {}, n)
    ensures a in tag && b in tag && tag[a] == tag[b]
    decreases n
  {
    var g := BothWays(pairs);
    if n == 1 {
      assert (a, b) in pairs || (b, a) in pairs;
    } else {
      var e :| e in g && e.0 == a && Path(g, e.1, b, {}, n - 1);
      assert (e.0, e.1) in pairs || (e.1, e.0) in pairs;
      LabelsAgree(pairs, tag, e.1, b, n - 1);
    }
  }

  /** What the groups must be: they join exactly the types that the declared pairs connect. */
  ghost predicate Represents<N, L>(pairs: set<(N, N)>, tag: map<N, L>) {
    && (forall p :: p in pairs ==> p.0 in tag && p.1 in tag && tag[p.0] == tag[p.1])
    && (forall a :: a in tag ==> Mentioned(pairs, a))
    && (forall a, b :: a in tag && b in tag && tag[a] == tag[b] ==> Joined(pairs, a, b))
  }

  /** Two types carry the same label exactly if the declared pairs connect them. */
  lemma SameLabel<N, L>(pairs: set<(N, N)>, tag: map<N, L>, a: N, b: N)
    requires Represents(pairs, tag)
    ensures a in tag && b in tag && tag[a] == tag[b] <==> Mentioned(pairs, a) && Joined(pairs, a, b)
  {
    if Mentioned(pairs, a) && Joined(pairs, a, b) {
      var p :| p in pairs && (p.0 == a || p.1 == a);
      if a != b {
        var n: nat :| Path(BothWays(pairs), a, b, {}, n);
        LabelsAgree(pairs, tag, a, b, n);
      }
    }
  }

  /** The labels after another pair has been declared: the classes of `x` and `y` have become one. */
  ghost predicate Merged<N, L>(tag: map<N, L>, tag': map<N, L>, x: N, y: N) {
    && tag'.Keys == tag.Keys + {x, y} && tag'[x] == tag'[y]
    && (forall a :: a in tag ==> tag'[a] == if Near(tag, a, x) || Near(tag, a, y) then tag'[x] else tag[a])
    && (forall a :: a in tag && tag[a] == tag'[x] ==> Near(tag, a, x) || Near(tag, a, y))
  }

  predicate Near<N(==), L(==)>(tag: map<N, L>, a: N, x: N) {
    a in tag && x in tag && tag[a] == tag[x]
  }

  lemma MergedRepresents<N, L>(pairs: set<(N, N)>, tag: map<N, L>, tag': map<N, L>, x: N, y: N)
    requires Represents(pairs, tag) && Merged(tag, tag', x, y)
    ensures Represents(pairs + {(x, y)}, tag')
  {
    hide Joined, Mentioned;
    var more := pairs + {(x, y)};
    forall a | a in tag' ensures Mentioned(more, a) { MentionedMore(pairs, more, x, y, a, tag); }
    forall a, b | a in tag' && b in tag' && tag'[a] == tag'[b] ensures Joined(more, a, b) {
      if a in tag && b in tag && tag[a] == tag[b] {
        JoinedMore(pairs, more, a, b);
      } else {
        JoinedToPair(pairs, more, tag, tag', x, y, a);
        JoinedToPair(pairs, more, tag, tag', x, y, b);
        JoinedSymmetric(more, b, x);
        JoinedTransitive(more, a, x, b);
      }
    }
  }

  lemma MentionedMore<N, L>(pairs: set<(N, N)>, more: set<(N, N)>, x: N, y: N, a: N, tag: map<N, L>)
    requires more == pairs + {(x, y)} && (a == x || a == y || (a in tag && Mentioned(pairs, a)))
    ensures Mentioned(more, a)
  {
    if a == x || a == y { assert (x, y) in more; }
  }

  lemma JoinedToPair<N, L>(pairs: set<(N, N)>, more: set<(N, N)>, tag: map<N, L>, tag': map<N, L>, x: N, y: N, a: N)
    requires Represents(pairs, tag) && Merged(tag, tag', x, y) && more == pairs + {(x, y)}
    requires a in tag' && tag'[a] == tag'[x]
    ensures Joined(more, a, x)
  {
    hide Joined, Mentioned;
    JoinedPair(more, x, y);
    JoinedSymmetric(more, x, y);
    JoinedSelf(more, x);
    if a != x && a != y {
      if Near(tag, a, x) {
        JoinedMore(pairs, more, a, x);
      } else {
        JoinedMore(pairs, more, a, y);
        JoinedTransitive(more, a, y, x);
      }
    }
  }

  lemma JoinedSelf<N>(pairs: set<(N, N)>, a: N)
    ensures Joined(pairs, a, a)
  {
  }

  // Groups

  /** The lock types of a definition file and the groups formed so far. */
  class CrstTypeTool {
    /** All types, in the order of the dictionary. */
    var crsts: seq<CrstType>
    var groups: seq<CrstTypeGroup>
    /** The pairs that have been declared to share a level. */
    ghost var pairs: set<(CrstType, CrstType)>

    constructor ()
      ensures GroupsRight() && crsts == [] && groups == [] && pairs == {}
    {
      crsts, groups, pairs := [], [], {};
    }

    /** A type that is mentioned for the first time. */
    method AddType(name: string) returns (crst: CrstType)
      requires GroupsRight()
      modifies this`crsts
      ensures GroupsRight() && fresh(crst) && crsts == old(crsts) + [crst]
      ensures crst.name == name && crst.level == CRST_UNASSIGNED && crst.acquiredBefore == [] && crst.group == null && !crst.defined
    {
      hide Represents;
      ghost var tag := Labels();
      crst := new CrstType(name);
      crsts := crsts + [crst];
      assert Labels() == tag;
    }

    /** Groups are disjoint, have no duplicates, and agree with what the types say about their group. */
    ghost predicate Grouped()
      reads this`crsts, this`groups, crsts`group, groups
    {
      && NoDuplicates(crsts) && NoDuplicates(groups)
      && (forall c :: c in crsts && c.group != null ==> c.group in groups && c in c.group.members)
      && (forall g :: g in groups ==> NoDuplicates(g.members))
      && (forall g, c :: g in groups && c in g.members ==> c in crsts && c.group == g)
    }

    /** Every grouped type with its group. */
    ghost function Labels(): map<CrstType, CrstTypeGroup?>
      reads this`crsts, crsts`group
    {
      map c | c in crsts && c.group != null :: c.group
    }

    /** The groups are exactly what the declared pairs call for. */
    ghost predicate GroupsRight()
      reads this, crsts`group, groups
    {
      Grouped() && Represents(pairs, Labels())
    }

    /** Two types are in one group exactly if the declared pairs connect them. */
    lemma SameGroup(a: CrstType, b: CrstType)
      requires GroupsRight() && a in crsts && b in crsts
      ensures a.group != null && a.group == b.group <==> Mentioned(pairs, a) && Joined(pairs, a, b)
    {
      hide Represents, Joined;
      SameLabel(pairs, Labels(), a, b);
    }

    lemma GroupsKnown()
      requires Grouped()
      ensures forall c :: c in Labels() ==> Labels()[c] in groups
      ensures forall c :: c in crsts && c.group != null ==> c.group in groups
    {
    }

    method NewGroup() returns (group: CrstTypeGroup)
      requires Grouped()
      modifies this`groups
      ensures Grouped() && fresh(group) && group.members == [] && groups == old(groups) + [group]
      ensures Labels() == old(Labels())
    {
      group := new CrstTypeGroup();
      groups := groups + [group];
    }

    /** A type without a group becomes a member of `group`. */
    method Add(group: CrstTypeGroup, crst: CrstType)
      requires Grouped() && group in groups && crst in crsts && crst.group == null
      modifies crst`group, group`members
      ensures Grouped() && crst.group == group && Labels() == old(Labels())[crst := group]
    {
      group.members := group.members + [crst];
      crst.group := group;
    }

    /** The members of one group move to another. */
    method MoveMembers(group: CrstTypeGroup, absorbGroup: CrstTypeGroup)
      requires Grouped() && group in groups && absorbGroup in groups && group != absorbGroup
      modifies (set c | c in crsts)`group, group`members
      ensures group.members == old(group.members) + absorbGroup.members
      ensures forall c :: c in crsts ==> c.group == if c in absorbGroup.members then group else old(c.group)
    {
      for i := 0 to |absorbGroup.members|
        invariant group.members == old(group.members) + absorbGroup.members[..i]
        invariant forall c :: c in crsts ==> c.group == if c in absorbGroup.members[..i] then group else old(c.group)
      {
        var crst := absorbGroup.members[i];
        group.members := group.members + [crst];
        crst.group := group;
      }
    }

    /** One group absorbs another, which is dropped. */
    method Absorb(group: CrstTypeGroup, absorbGroup: CrstTypeGroup)
      requires Grouped() && group in groups && absorbGroup in groups && group != absorbGroup
      modifies this`groups, (set c | c in crsts)`group, group`members
      ensures Grouped() && forall g :: g in groups ==> g in old(groups)
      ensures forall c :: c in crsts ==> c.group == if old(c.group) == absorbGroup then group else old(c.group)
    {
      hide NoDuplicates;
      RemoveOnce(groups, absorbGroup);
      MembersApart(group, absorbGroup);
      MoveMembers(group, absorbGroup);
      groups := Remove(groups, absorbGroup);
    }

    lemma MembersApart(g: CrstTypeGroup, h: CrstTypeGroup)
      requires Grouped() && g in groups && h in groups && g != h
      ensures NoDuplicates(g.members + h.members)
    {
      var s := g.members + h.members;
      forall i, j | 0 <= i < j < |s| ensures s[i] != s[j] {
        if i < |g.members| <= j { assert s[i].group == g && s[j].group == h; }
      }
    }

    /** Declares that two types share a level. */
    method Join(crst1: CrstType, crst2: CrstType)
      requires GroupsRight() && crst1 in crsts && crst2 in crsts
      modifies this`groups, this`pairs, (set c | c in crsts)`group, (set g | g in groups)`members
      ensures GroupsRight() && crsts == old(crsts) && pairs == old(pairs) + {(crst1, crst2)}
      ensures forall g :: g in groups ==> g in old(groups) || fresh(g)
    {
      hide Grouped, Merged, Represents;
      ghost var tag := Labels();
      ChangeGroups(crst1, crst2);
      MergedRepresents(pairs, tag, Labels(), crst1, crst2);
      pairs := pairs + {(crst1, crst2)};
    }

    /** Creates, extends or merges groups so that the two types are in one. */
    method ChangeGroups(crst1: CrstType, crst2: CrstType)
      requires Grouped() && crst1 in crsts && crst2 in crsts
      modifies this`groups, (set c | c in crsts)`group, (set g | g in groups)`members
      ensures Grouped() && crsts == old(crsts)
      ensures Merged(old(Labels()), Labels(), crst1, crst2)
      ensures forall g :: g in groups ==> g in old(groups) || fresh(g)
    {
      hide Grouped, NoDuplicates, Merged;
      GroupsKnown();
      ghost var tag: map<CrstType, CrstTypeGroup?> := Labels();
      if crst1 == crst2 {
        if crst1.group == null {
          var group := NewGroup();
          Add(group, crst1);
          MergedNew(tag, crst1, crst1, group);
          assert Labels() == tag[crst1 := group][crst1 := group];
        } else {
          MergedSame(tag, crst1, crst2);
        }
      } else if crst1.group == null && crst2.group == null {
        var group := NewGroup();
        Add(group, crst1);
        Add(group, crst2);
        MergedNew(tag, crst1, crst2, group);
      } else if crst1.group == null {
        Add(crst2.group, crst1);
        MergedAdd(tag, crst1, crst2);
      } else if crst2.group == null {
        Add(crst1.group, crst2);
        MergedAdd(tag, crst2, crst1);
        MergedSwap(tag, Labels(), crst2, crst1);
      } else if crst1.group != crst2.group {
        Absorb(crst1.group, crst2.group);
        assert Labels() == map c | c in tag :: if tag[c] == tag[crst2] then tag[crst1] else tag[c];
        MergedAbsorb(tag, Labels(), crst1, crst2);
      } else {
        MergedSame(tag, crst1, crst2);
      }
    }
  }

  lemma MergedNew<N, L>(tag: map<N, L>, x: N, y: N, l: L)
    requires x !in tag && y !in tag && forall a :: a in tag ==> tag[a] != l
    ensures Merged(tag, tag[x := l][y := l], x, y)
  {
  }

  lemma MergedSame<N, L>(tag: map<N, L>, x: N, y: N)
    requires Near(tag, x, y)
    ensures Merged(tag, tag, x, y)
  {
    assert tag.Keys == tag.Keys + {x, y};
  }

  lemma MergedAdd<N, L>(tag: map<N, L>, x: N, y: N)
    requires x !in tag && y in tag
    ensures Merged(tag, tag[x := tag[y]], x, y)
  {
    assert tag[x := tag[y]].Keys == tag.Keys + {x, y};
  }

  lemma MergedSwap<N, L>(tag: map<N, L>, tag': map<N, L>, x: N, y: N)
    requires Merged(tag, tag', x, y)
    ensures Merged(tag, tag', y, x)
  {
    assert {x, y} == {y, x};
  }

  lemma MergedAbsorb<N, L>(tag: map<N, L>, tag': map<N, L>, x: N, y: N)
    requires x in tag && y in tag && tag' == map c | c in tag :: if tag[c] == tag[y] then tag[x] else tag[c]
    ensures Merged(tag, tag', x, y)
  {
    assert tag'.Keys == tag.Keys + {x, y};
  }
}
