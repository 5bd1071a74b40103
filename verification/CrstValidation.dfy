/** The checks on lock type definitions: cycles among the ordering rules, before and after the rules of a group have
    been made the same for all its members. */
module CrstValidation {
  import opened Digraph
  import opened CrstTypes

  /** The rules "a may be held when b is acquired". */
  ghost function Rules(tool: CrstTypeTool): Graph<CrstType>
    reads tool`crsts, tool.crsts`acquiredBefore
  {
    set c, d | c in tool.crsts && d in c.acquiredBefore :: (c, d)
  }

  ghost predicate RulesClosed(tool: CrstTypeTool)
    reads tool`crsts, tool.crsts`acquiredBefore
  {
    forall c, d :: c in tool.crsts && d in c.acquiredBefore ==> d in tool.crsts
  }

  function Elements<T>(s: seq<T>): set<T> {
    set x | x in s
  }

  lemma ElementsSnoc<T>(s: seq<T>, x: T)
    ensures Elements(s + [x]) == Elements(s) + {x}
  {
  }

  /** A simple path. */
  ghost predicate Trail(g: Graph<CrstType>, p: seq<CrstType>) {
    NoDuplicates(p) && Walk(g, p)
  }

  lemma TrailLonger(g: Graph<CrstType>, p: seq<CrstType>, c: CrstType)
    requires Trail(g, p) && p != [] && (p[|p| - 1], c) in g && c !in p
    ensures Trail(g, p + [c])
  {
  }

  /** What the search from `curr` finds when the types in `seen` are already on the path to it. */
  ghost predicate Finds(g: Graph<CrstType>, root: CrstType, curr: CrstType, seen: seq<CrstType>) {
    Reaches(g, curr, root, Elements(seen))
  }

  /** The child `d` is no way back to the root. */
  ghost predicate DeadEnd(g: Graph<CrstType>, root: CrstType, d: CrstType, seen: seq<CrstType>) {
    d != root && (d in seen || !Finds(g, root, d, seen + [d]))
  }

  lemma SearchStep(g: Graph<CrstType>, root: CrstType, curr: CrstType, seen: seq<CrstType>)
    requires curr in seen
    ensures Finds(g, root, curr, seen) <==> exists e :: e in g && e.0 == curr && !DeadEnd(g, root, e.1, seen)
  {
    hide Reaches;
    ReachesByStep(g, curr, root, Elements(seen));
    forall d: CrstType | true ensures Elements(seen + [d]) == Elements(seen) + {d} { }
    if (curr, root) in g {
      var e := (curr, root);
      assert e in g && !DeadEnd(g, root, e.1, seen);
    }
  }

  /** Searches for a way from `currCrst` back to the root that avoids the types on the path so far. */
  method FindCycle(tool: CrstTypeTool, rootCrst: CrstType, currCrst: CrstType, cycleList: seq<CrstType>)
    returns (found: bool, list: seq<CrstType>)
    requires RulesClosed(tool) && currCrst in tool.crsts && currCrst !in cycleList && Elements(cycleList) <= Elements(tool.crsts)
    requires Trail(Rules(tool), cycleList + [currCrst])
    ensures found <==> Finds(Rules(tool), rootCrst, currCrst, cycleList + [currCrst])
    ensures !found ==> list == cycleList
    ensures found ==> cycleList + [currCrst] <= list && Trail(Rules(tool), list) && (list[|list| - 1], rootCrst) in Rules(tool)
    decreases Elements(tool.crsts) - Elements(cycleList)
  {
    hide Trail, Finds;
    list := cycleList + [currCrst];
    ghost var g, seen := Rules(tool), list;
    for i := 0 to |currCrst.acquiredBefore|
      invariant list == seen
      invariant forall j :: 0 <= j < i ==> DeadEnd(g, rootCrst, currCrst.acquiredBefore[j], seen)
    {
      var childCrst := currCrst.acquiredBefore[i];
      assert (currCrst, childCrst) in g;
      if childCrst == rootCrst {
        FoundHere(g, rootCrst, currCrst, seen, childCrst);
        return true, list;
      }
      if childCrst !in list {
        TrailLonger(g, list, childCrst);
        assert currCrst in Elements(tool.crsts) - Elements(cycleList) && currCrst !in Elements(tool.crsts) - Elements(list);
        found, list := FindCycle(tool, rootCrst, childCrst, list);
        if found {
          FoundHere(g, rootCrst, currCrst, seen, childCrst);
          return;
        }
      }
    }
    list := list[..|list| - 1];
    found := false;
    SearchStep(g, rootCrst, currCrst, seen);
    forall e | e in g && e.0 == currCrst ensures DeadEnd(g, rootCrst, e.1, seen) {
      var j :| 0 <= j < |currCrst.acquiredBefore| && currCrst.acquiredBefore[j] == e.1;
    }
  }

  lemma FoundHere(g: Graph<CrstType>, root: CrstType, curr: CrstType, seen: seq<CrstType>, d: CrstType)
    requires curr in seen && (curr, d) in g && !DeadEnd(g, root, d, seen)
    ensures Finds(g, root, curr, seen)
  {
    SearchStep(g, root, curr, seen);
    var e := (curr, d);
    assert e in g && !DeadEnd(g, root, e.1, seen);
  }

  /** Started at the root itself, the search finds exactly the cycles through the root. */
  lemma SearchFromRoot(g: Graph<CrstType>, root: CrstType)
    ensures Finds(g, root, root, [root]) <==> OnCycle(g, root)
  {
    OnCycleAvoiding(g, root);
    assert Elements([root]) == {root};
  }

  // Normalisation

  /** Everything that some member may be held for. */
  ghost function Union(members: seq<CrstType>): set<CrstType>
    reads members`acquiredBefore
  {
    set m, d | m in members && d in m.acquiredBefore :: d
  }

  /** The rules of all members together, without duplicates. */
  method CollectRules(group: CrstTypeGroup) returns (acquiredBeforeList: seq<CrstType>)
    ensures Elements(acquiredBeforeList) == Union(group.members) && NoDuplicates(acquiredBeforeList)
  {
    acquiredBeforeList := [];
    for i := 0 to |group.members|
      invariant Elements(acquiredBeforeList) == Union(group.members[..i]) && NoDuplicates(acquiredBeforeList)
    {
      var crst := group.members[i];
      for j := 0 to |crst.acquiredBefore|
        invariant NoDuplicates(acquiredBeforeList)
        invariant Elements(acquiredBeforeList) == Union(group.members[..i]) + Elements(crst.acquiredBefore[..j])
      {
        var afterCrst := crst.acquiredBefore[j];
        assert crst.acquiredBefore[..j + 1] == crst.acquiredBefore[..j] + [afterCrst];
        ElementsSnoc(crst.acquiredBefore[..j], afterCrst);
        if afterCrst !in acquiredBeforeList {
          ElementsSnoc(acquiredBeforeList, afterCrst);
          acquiredBeforeList := acquiredBeforeList + [afterCrst];
        } else {
          assert afterCrst in Elements(acquiredBeforeList);
        }
      }
      assert crst.acquiredBefore[..|crst.acquiredBefore|] == crst.acquiredBefore;
      assert group.members[..i + 1] == group.members[..i] + [crst];
      UnionSnoc(group.members[..i], crst);
    }
    assert group.members[..|group.members|] == group.members;
  }

  lemma UnionSnoc(members: seq<CrstType>, m: CrstType)
    ensures Union(members + [m]) == Union(members) + Elements(m.acquiredBefore)
  {
  }

  /** The rules of every member of a group become those of all its members together. */
  method NormalizeRules(group: CrstTypeGroup)
    modifies (set c | c in group.members)`acquiredBefore
    ensures forall m :: m in group.members ==> Elements(m.acquiredBefore) == old(Union(group.members))
    ensures forall m, n :: m in group.members && n in group.members ==> m.acquiredBefore == n.acquiredBefore
  {
    var acquiredBeforeList := CollectRules(group);
    for i := 0 to |group.members|
      invariant forall j :: 0 <= j < i ==> group.members[j].acquiredBefore == acquiredBeforeList
    {
      group.members[i].acquiredBefore := acquiredBeforeList;
    }
  }

  /** Every type with the types that share its level. */
  ghost function Classes(tool: CrstTypeTool): map<CrstType, set<CrstType>>
    reads tool, tool.crsts`group, set c | c in tool.crsts && c.group != null :: c.group
  {
    map c | c in tool.crsts :: if c.group == null then {c} else Elements(c.group.members)
  }

  lemma ClassesPartition(tool: CrstTypeTool)
    requires tool.Grouped()
    ensures IsPartition(Classes(tool))
  {
  }

  lemma RulesOver(tool: CrstTypeTool)
    requires RulesClosed(tool)
    ensures Over(Rules(tool), Classes(tool))
  {
  }

  /** The members of a group have the same rules. */
  ghost predicate SameRules(tool: CrstTypeTool)
    reads tool`groups, tool.groups, (set g, c | g in tool.groups && c in g.members :: c)`acquiredBefore
  {
    forall g, c, d :: g in tool.groups && c in g.members && d in g.members ==> c.acquiredBefore == d.acquiredBefore
  }

  ghost function Successors(g: Graph<CrstType>, s: set<CrstType>): set<CrstType> {
    set e | e in g && e.0 in s :: e.1
  }

  lemma UnionIsSuccessors(g: Graph<CrstType>, members: seq<CrstType>)
    requires forall m :: m in members ==> Elements(m.acquiredBefore) == Successors(g, {m})
    ensures Union(members) == Successors(g, Elements(members))
  {
    forall d | d in Union(members) ensures d in Successors(g, Elements(members)) {
      var m :| m in members && d in m.acquiredBefore;
      assert d in Elements(m.acquiredBefore);
      var e :| e in g && e.0 in {m} && e.1 == d;
    }
    forall d | d in Successors(g, Elements(members)) ensures d in Union(members) {
      var e :| e in g && e.0 in members && e.1 == d;
      assert d in Successors(g, {e.0});
      assert d in Elements(e.0.acquiredBefore);
    }
  }

  /** Every type has the rules of its class. */
  ghost predicate HasClassRules(tool: CrstTypeTool, g: Graph<CrstType>)
    requires tool.Grouped()
    reads tool`crsts, tool`groups, tool.crsts`group, tool.groups, tool.crsts`acquiredBefore
  {
    && (forall c :: c in tool.crsts && c.group == null ==> Elements(c.acquiredBefore) == Successors(g, {c}))
    && (forall h, m :: h in tool.groups && m in h.members ==> Elements(m.acquiredBefore) == Successors(g, Elements(h.members)))
  }

  lemma ClassRulesNormalize(tool: CrstTypeTool, g: Graph<CrstType>)
    requires tool.Grouped() && Over(g, Classes(tool)) && HasClassRules(tool, g)
    ensures RulesClosed(tool) && Normalizes(Rules(tool), g, Classes(tool))
  {
    var part, n := Classes(tool), Rules(tool);
    ClassesPartition(tool);
    forall c | c in tool.crsts ensures Elements(c.acquiredBefore) == Successors(g, part[c]) { }
    forall c, d | c in tool.crsts && d in c.acquiredBefore ensures d in tool.crsts && FromClass(g, part, (c, d)) {
      assert d in Successors(g, part[c]);
    }
    forall f, a | f in g && a in part[f.0] ensures Has(n, a, f.1) {
      assert part[a] == part[f.0];
      assert f.1 in Successors(g, part[a]);
      assert f.1 in Elements(a.acquiredBefore);
    }
    forall f | f in g ensures f in n {
      assert f.0 in part[f.0];
      assert Has(n, f.0, f.1);
    }
  }

  method NormalizeAllRules(tool: CrstTypeTool)
    requires tool.Grouped() && RulesClosed(tool)
    modifies (set c | c in tool.crsts)`acquiredBefore
    ensures RulesClosed(tool) && SameRules(tool)
    ensures Over(old(Rules(tool)), Classes(tool)) && Normalizes(Rules(tool), old(Rules(tool)), Classes(tool))
  {
    hide Normalizes, Classes, Rules, NoDuplicates;
    ghost var g := Rules(tool);
    RulesOver(tool);
    OwnRules(tool);
    for i := 0 to |tool.groups|
      invariant forall c :: c in tool.crsts && (c.group == null || c.group !in tool.groups[..i]) ==> Elements(c.acquiredBefore) == Successors(g, {c})
      invariant forall h, m :: h in tool.groups[..i] && m in h.members ==> Elements(m.acquiredBefore) == Successors(g, Elements(h.members))
      invariant forall h, m, n :: h in tool.groups[..i] && m in h.members && n in h.members ==> m.acquiredBefore == n.acquiredBefore
    {
      NotYet(tool, i);
      UnionIsSuccessors(g, tool.groups[i].members);
      NormalizeRules(tool.groups[i]);
      assert tool.groups[..i + 1] == tool.groups[..i] + [tool.groups[i]];
    }
    assert tool.groups[..|tool.groups|] == tool.groups;
    ClassRulesNormalize(tool, g);
  }

  lemma OwnRules(tool: CrstTypeTool)
    ensures forall c :: c in tool.crsts ==> Elements(c.acquiredBefore) == Successors(Rules(tool), {c})
  {
    forall c | c in tool.crsts ensures Elements(c.acquiredBefore) == Successors(Rules(tool), {c}) {
      forall d | d in c.acquiredBefore ensures d in Successors(Rules(tool), {c}) { assert (c, d) in Rules(tool); }
    }
  }

  lemma NotYet(tool: CrstTypeTool, i: nat)
    requires tool.Grouped() && i < |tool.groups|
    ensures tool.groups[i] !in tool.groups[..i]
    ensures forall m :: m in tool.groups[i].members ==> m in tool.crsts && m.group == tool.groups[i]
  {
  }

  // Validation

  datatype Verdict = Accepted | Rejected | Crashed

  /** The checks that the first round makes on each type. */
  ghost predicate Passes(tool: CrstTypeTool, c: CrstType)
    reads c, tool`crsts, tool.crsts`acquiredBefore
  {
    && c.defined && (c.level == CRST_UNORDERED ==> c.acquiredBefore == [] && c.group == null)
    && !OnCycle(Rules(tool), c)
  }

  /** The definitions make sense: every type is defined, unordered types take no part in the ordering, and there is no
      cycle even when the types of a group are taken for one. */
  ghost predicate Acceptable(tool: CrstTypeTool)
    requires tool.Grouped() && RulesClosed(tool)
    reads tool, tool.crsts, tool.groups, set c | c in tool.crsts && c.group != null :: c.group
  {
    RulesOver(tool);
    && (forall c :: c in tool.crsts ==> c.defined && (c.level == CRST_UNORDERED ==> c.acquiredBefore == [] && c.group == null))
    && !Cyclic(Quotient(Rules(tool), Classes(tool)))
  }

  /** The message about an unordered type in a group quotes the first of its rules, even if it has none. */
  ghost predicate Crashes(c: CrstType)
    reads c
  {
    c.defined && c.level == CRST_UNORDERED && c.acquiredBefore == [] && c.group != null
  }

  /** The first type that fails a check is one whose message crashes. */
  ghost predicate CrashesFirst(tool: CrstTypeTool)
    requires RulesClosed(tool)
    reads tool, tool.crsts
  {
    exists i: nat :: i < |tool.crsts| && Crashes(tool.crsts[i]) && forall j: nat :: j < i ==> Passes(tool, tool.crsts[j])
  }

  /** An unordered type declared to share its level with itself is enough. */
  lemma UnorderedWithItself(tool: CrstTypeTool, a: CrstType)
    requires RulesClosed(tool) && tool.crsts == [a]
    requires a.defined && a.level == CRST_UNORDERED && a.acquiredBefore == [] && a.group != null && a.group.members == [a]
    ensures CrashesFirst(tool)
  {
    assert Crashes(tool.crsts[0]);
  }

  /** The first round of checks.  (A later check for unordered types in groups can never fail after this one.) */
  method CheckType(tool: CrstTypeTool, crst: CrstType) returns (verdict: Verdict)
    requires RulesClosed(tool) && crst in tool.crsts
    ensures verdict == Accepted <==> Passes(tool, crst)
    ensures verdict == Crashed <==> Crashes(crst)
  {
    hide Finds, OnCycle;
    if !crst.defined {
      return Rejected;
    }
    if crst.level == CRST_UNORDERED && (|crst.acquiredBefore| > 0 || crst.group != null) {
      return if |crst.acquiredBefore| == 0 then Crashed else Rejected;
    }
    if crst in crst.acquiredBefore {
      SelfCycle(Rules(tool), crst);
      return Rejected;
    }
    var found, cycleList := FindCycle(tool, crst, crst, []);
    assert [] + [crst] == [crst];
    SearchFromRoot(Rules(tool), crst);
    return if found then Rejected else Accepted;
  }

  lemma SelfCycle(g: Graph<CrstType>, c: CrstType)
    requires (c, c) in g
    ensures OnCycle(g, c)
  {
    assert Path(g, c, c, {}, 1);
  }

  /** The first round over all types. */
  method CheckTypes(tool: CrstTypeTool) returns (verdict: Verdict)
    requires RulesClosed(tool)
    ensures verdict == Accepted <==> forall c :: c in tool.crsts ==> Passes(tool, c)
    ensures verdict == Crashed <==> CrashesFirst(tool)
  {
    hide Passes;
    for i := 0 to |tool.crsts|
      invariant forall j :: 0 <= j < i ==> Passes(tool, tool.crsts[j])
    {
      verdict := CheckType(tool, tool.crsts[i]);
      if verdict != Accepted {
        forall k: nat | k < |tool.crsts| && Crashes(tool.crsts[k]) && forall j: nat :: j < k ==> Passes(tool, tool.crsts[j])
          ensures verdict == Crashed
        {
          CrashesFails(tool, tool.crsts[k]);
        }
        return;
      }
    }
    forall k: nat | k < |tool.crsts| && Crashes(tool.crsts[k]) ensures false { CrashesFails(tool, tool.crsts[k]); }
    return Accepted;
  }

  lemma CrashesFails(tool: CrstTypeTool, c: CrstType)
    requires Crashes(c)
    ensures !Passes(tool, c)
  {
  }

  /** Whether there is any cycle, found by a search from every type. */
  method HasCycle(tool: CrstTypeTool) returns (found: bool)
    requires RulesClosed(tool)
    ensures found <==> Cyclic(Rules(tool))
  {
    hide Finds, OnCycle;
    for i := 0 to |tool.crsts|
      invariant forall j :: 0 <= j < i ==> !OnCycle(Rules(tool), tool.crsts[j])
    {
      var crst := tool.crsts[i];
      assert [] + [crst] == [crst];
      var cycleList;
      found, cycleList := FindCycle(tool, crst, crst, []);
      SearchFromRoot(Rules(tool), crst);
      if found {
        FoundCycle(Rules(tool), crst);
        return;
      }
    }
    found := false;
  }

  lemma FoundCycle(g: Graph<CrstType>, c: CrstType)
    requires OnCycle(g, c)
    ensures Cyclic(g)
  {
    var n: nat :| Path(g, c, c, {}, n);
    CycleIsCyclic(g, c, n);
  }

  lemma FailsUnacceptable(tool: CrstTypeTool, c: CrstType)
    requires tool.Grouped() && RulesClosed(tool) && c in tool.crsts && !Passes(tool, c)
    ensures !Acceptable(tool)
  {
    hide OnCycle, Cyclic, Rules, Classes, Quotient;
    RulesOver(tool);
    ClassesPartition(tool);
    if OnCycle(Rules(tool), c) { CycleInQuotient(Rules(tool), Classes(tool), c); }
  }

  /** Checks the definitions, and gives every type the rules of its group. */
  method ValidateCrsts(tool: CrstTypeTool) returns (verdict: Verdict)
    requires tool.Grouped() && RulesClosed(tool)
    modifies (set c | c in tool.crsts)`acquiredBefore
    ensures RulesClosed(tool)
    ensures verdict == Accepted <==> old(Acceptable(tool))
    ensures verdict == Crashed <==> old(CrashesFirst(tool))
    ensures verdict == Accepted ==> SameRules(tool) && !Cyclic(Rules(tool))
    ensures verdict == Accepted ==>
              Over(old(Rules(tool)), Classes(tool)) && Normalizes(Rules(tool), old(Rules(tool)), Classes(tool))
  {
    hide Normalizes, Classes, Rules, Cyclic, Quotient, NoDuplicates, Crashes, CrstTypeTool.Grouped;
    ghost var g := Rules(tool);
    ghost var part := Classes(tool);
    RulesOver(tool);
    verdict := CheckTypes(tool);
    if verdict != Accepted {
      ghost var c :| c in tool.crsts && !Passes(tool, c);
      FailsUnacceptable(tool, c);
      return;
    }
    ClassesPartition(tool);
    NormalizeAllRules(tool);
    NormalizedCycles(Rules(tool), g, part);
    var found := HasCycle(tool);
    return if found then Rejected else Accepted;
  }
}
