/** The ranking of lock types: a level for every type so that types are acquired in falling order of levels. */
module CrstLevels {
  import opened Digraph
  import opened CrstTypes
  import opened CrstValidation

  type Levels = map<CrstType, int>
  type Groups = map<CrstType, CrstTypeGroup?>

  /** What a ranking with the levels below `free` must satisfy: rules lead to lower levels, a level belongs to one group or
      to types without a group, the members of a group share their level, and no level is left out. */
  ghost predicate Ranked(lv: Levels, grp: Groups, r: Graph<CrstType>, free: nat) {
    && lv.Keys == grp.Keys
    && (forall c :: c in lv ==> lv[c] == CRST_UNASSIGNED || lv[c] == CRST_UNORDERED || 0 <= lv[c] < free)
    && (forall a, b :: a in lv && b in lv && lv[a] == lv[b] && lv[a] >= 0 ==> grp[a] == grp[b])
    && (forall a, b :: a in lv && b in lv && grp[a] == grp[b] && grp[a] != null ==> lv[a] == lv[b])
    && (forall l :: 0 <= l < free ==> Used(lv, l))
    && (forall e :: e in r ==> RuleKept(lv, e))
  }

  predicate Used(lv: Levels, l: int) {
    exists c :: c in lv && lv[c] == l
  }

  /** A type that has a level is above everything that may be acquired under it. */
  predicate RuleKept(lv: Levels, e: (CrstType, CrstType)) {
    e.0 in lv && e.1 in lv && (lv[e.0] >= 0 ==> Below(lv, e.1, lv[e.0]))
  }

  /** `c` is ranked below level `l`, or unordered. */
  predicate Below(lv: Levels, c: CrstType, l: int) {
    c in lv && lv[c] != CRST_UNASSIGNED && lv[c] < l
  }

  function Assign(lv: Levels, s: set<CrstType>, l: int): Levels {
    map c | c in lv :: if c in s then l else lv[c]
  }

  /** Types that form one group, or that have no group, may take the next level together once everything under them is
      ranked. */
  lemma AssignRanks(lv: Levels, grp: Groups, r: Graph<CrstType>, free: nat, s: set<CrstType>)
    requires Ranked(lv, grp, r, free) && s != {}
    requires forall c :: c in s ==> c in lv && lv[c] == CRST_UNASSIGNED
    requires forall a, b :: a in s && b in s ==> grp[a] == grp[b]
    requires forall a, b :: a in s && b in lv && grp[a] != null && grp[b] == grp[a] ==> b in s
    requires forall e :: e in r && e.0 in s ==> Below(lv, e.1, free)
    ensures Ranked(Assign(lv, s, free), grp, r, free + 1)
  {
    var lv' := Assign(lv, s, free);
    assert lv'.Keys == lv.Keys;
    forall l | 0 <= l < free + 1 ensures Used(lv', l) {
      if l == free {
        var c :| c in s;
        assert lv'[c] == l;
      } else {
        assert Used(lv, l);
        var c :| c in lv && lv[c] == l;
        assert lv'[c] == l;
      }
    }
    forall e | e in r ensures RuleKept(lv', e) {
      assert RuleKept(lv, e);
    }
  }

  // The types as they stand

  ghost function LevelsOf(tool: CrstTypeTool): Levels
    reads tool`crsts, tool.crsts`level
  {
    map c | c in tool.crsts :: c.level
  }

  ghost function GroupsOf(tool: CrstTypeTool): Groups
    reads tool`crsts, tool.crsts`group
  {
    map c | c in tool.crsts :: c.group
  }

  ghost function Unassigned(tool: CrstTypeTool): (s: set<CrstType>)
    reads tool`crsts, tool.crsts`level
  {
    set c | c in tool.crsts && c.level == CRST_UNASSIGNED
  }

  /** Types that can be ranked next. */
  ghost predicate IsReady(c: CrstType)
    reads c
  {
    c.level == CRST_UNASSIGNED && c.acquiredBefore == []
  }

  /** The number of types that have no rank yet. */
  method CountUnsorted(tool: CrstTypeTool) returns (unsorted: int)
    requires NoDuplicates(tool.crsts)
    ensures unsorted == |Unassigned(tool)|
  {
    unsorted := 0;
    ghost var s: set<CrstType> := {};
    for i := 0 to |tool.crsts|
      invariant s == set c | c in tool.crsts[..i] && c.level == CRST_UNASSIGNED
      invariant unsorted == |s|
    {
      if tool.crsts[i].level == CRST_UNASSIGNED {
        unsorted := unsorted + 1;
        s := s + {tool.crsts[i]};
      }
    }
    assert s == Unassigned(tool);
  }

  method SetLevel(tool: CrstTypeTool, crst: CrstType, level: nat)
    requires crst in tool.crsts && crst.level == CRST_UNASSIGNED
    modifies crst`level
    ensures crst.level == level && |Unassigned(tool)| == |old(Unassigned(tool))| - 1
  {
    ghost var u := Unassigned(tool);
    crst.level := level;
    assert Unassigned(tool) == u - {crst};
  }

  /** The types that can be ranked next. */
  ghost function Ready(tool: CrstTypeTool): set<CrstType>
    reads tool`crsts, tool.crsts
  {
    set c | c in tool.crsts && IsReady(c)
  }

  /** `gs` lists the groups of the types in `ready`. */
  ghost predicate ListsGroups(gs: seq<CrstTypeGroup>, ready: set<CrstType>)
    reads ready`group
  {
    && NoDuplicates(gs)
    && (forall g :: g in gs ==> exists c :: c in ready && c.group == g)
    && (forall c :: c in ready && c.group != null ==> c.group in gs)
  }

  lemma ListMore(gs: seq<CrstTypeGroup>, ready: set<CrstType>, c: CrstType)
    requires ListsGroups(gs, ready)
    ensures c.group == null || c.group in gs ==> ListsGroups(gs, ready + {c})
    ensures c.group != null && c.group !in gs ==> ListsGroups(gs + [c.group], ready + {c})
  {
    forall g | g in gs ensures exists d :: d in ready + {c} && d.group == g {
      var d :| d in ready && d.group == g;
      assert d in ready + {c};
    }
    assert c in ready + {c};
  }

  /** First part of a pass: types without a group are ranked, groups that are ready are put aside. */
  method RankSingletons(tool: CrstTypeTool, currLevel: nat, unsorted: int)
    returns (madeProgress: bool, unsorted': int, deferredGroups: seq<CrstTypeGroup>, ghost s: set<CrstType>)
    requires NoDuplicates(tool.crsts)
    modifies (set c | c in tool.crsts)`level
    ensures s == old(Alone(Ready(tool)))
    ensures LevelsOf(tool) == Assign(old(LevelsOf(tool)), s, currLevel)
    ensures forall c :: c in tool.crsts ==> c.level == if c in s then currLevel else old(c.level)
    ensures madeProgress <==> s != {}
    ensures unsorted' - |Unassigned(tool)| == unsorted - |old(Unassigned(tool))|
    ensures ListsGroups(deferredGroups, old(Ready(tool)))
  {
    hide ListsGroups, Among, Alone, Unassigned;
    ghost var ready: set<CrstType>, done: set<CrstType> := Ready(tool), {};
    madeProgress, unsorted', deferredGroups, s := false, unsorted, [], {};
    NoGroups(tool.crsts, ready);
    for i := 0 to |tool.crsts|
      invariant done == Among(tool.crsts, i, ready) && s == Alone(done)
      invariant forall c :: c in tool.crsts ==> c.level == if c in s then currLevel else old(c.level)
      invariant madeProgress <==> s != {}
      invariant unsorted' - |Unassigned(tool)| == unsorted - |old(Unassigned(tool))|
      invariant ListsGroups(deferredGroups, done)
    {
      var crst := tool.crsts[i];
      AmongNext(tool.crsts, i, ready);
      AloneNext(done, crst);
      assert crst in ready <==> crst.level == CRST_UNASSIGNED && crst.acquiredBefore == [] by {
        assert crst in ready <==> old(IsReady(crst));
      }
      if crst.level == CRST_UNASSIGNED && |crst.acquiredBefore| == 0 {
        ListMore(deferredGroups, done, crst);
        if crst.group == null {
          SetLevel(tool, crst, currLevel);
          madeProgress := true;
          unsorted' := unsorted' - 1;
          s := s + {crst};
        } else {
          var group: CrstTypeGroup := crst.group;
          if group !in deferredGroups {
            deferredGroups := deferredGroups + [group];
          }
        }
        done := done + {crst};
      }
    }
    AllAmong(tool, ready);
    assert s == old(Alone(ready)) by { assert Alone(ready) == old(Alone(ready)); }
    assert LevelsOf(tool) == Assign(old(LevelsOf(tool)), s, currLevel) by {
      forall c | c in tool.crsts ensures c.level == Assign(old(LevelsOf(tool)), s, currLevel)[c] { }
    }
  }

  /** The first `i` types, as far as they are in `ready`. */
  ghost function Among(crsts: seq<CrstType>, i: nat, ready: set<CrstType>): set<CrstType>
    requires i <= |crsts|
  {
    set c | c in crsts[..i] && c in ready
  }

  ghost function Alone(s: set<CrstType>): set<CrstType>
    reads s`group
  {
    set c | c in s && c.group == null
  }

  lemma NoGroups(crsts: seq<CrstType>, ready: set<CrstType>)
    ensures Among(crsts, 0, ready) == {} && Alone({}) == {} && ListsGroups([], {})
  {
  }

  lemma AmongNext(crsts: seq<CrstType>, i: nat, ready: set<CrstType>)
    requires i < |crsts| && NoDuplicates(crsts)
    ensures Among(crsts, i + 1, ready) == if crsts[i] in ready then Among(crsts, i, ready) + {crsts[i]} else Among(crsts, i, ready)
    ensures crsts[i] !in Among(crsts, i, ready)
  {
    assert crsts[..i + 1] == crsts[..i] + [crsts[i]];
  }

  lemma AloneNext(s: set<CrstType>, c: CrstType)
    ensures Alone(s) <= s && Alone(s + {c}) == if c.group == null then Alone(s) + {c} else Alone(s)
  {
  }

  lemma AllAmong(tool: CrstTypeTool, ready: set<CrstType>)
    requires ready <= set c | c in tool.crsts
    ensures Among(tool.crsts, |tool.crsts|, ready) == ready
  {
    assert tool.crsts[..|tool.crsts|] == tool.crsts;
  }

  /** All members of a group take the same level; their rules must all have been dealt with. */
  method RankGroup(tool: CrstTypeTool, group: CrstTypeGroup, currLevel: nat, unsorted: int) returns (ok: bool, unsorted': int)
    requires NoDuplicates(group.members) && forall c :: c in group.members ==> c in tool.crsts && c.level == CRST_UNASSIGNED
    modifies (set c | c in group.members)`level
    ensures ok <==> forall c :: c in group.members ==> c.acquiredBefore == []
    ensures ok ==> LevelsOf(tool) == Assign(old(LevelsOf(tool)), Elements(group.members), currLevel)
    ensures ok ==> unsorted' - |Unassigned(tool)| == unsorted - |old(Unassigned(tool))|
  {
    unsorted' := unsorted;
    for i := 0 to |group.members|
      invariant forall c :: c in group.members[..i] ==> c.acquiredBefore == []
      invariant forall c :: c in tool.crsts ==> c.level == if c in group.members[..i] then currLevel else old(c.level)
      invariant unsorted' - |Unassigned(tool)| == unsorted - |old(Unassigned(tool))|
    {
      var crst := group.members[i];
      if |crst.acquiredBefore| != 0 {
        return false, unsorted';
      }
      ghost var u := Unassigned(tool);
      crst.level := currLevel;
      unsorted' := unsorted' - 1;
      assert Unassigned(tool) == u - {crst};
    }
    assert group.members[..|group.members|] == group.members;
    return true, unsorted';
  }

  /** The types in `s` have no rank yet, but everything that may be acquired under them is below `l`. */
  ghost predicate Open(lv: Levels, r: Graph<CrstType>, s: set<CrstType>, l: nat) {
    && s != {} && (forall c :: c in s ==> c in lv && lv[c] == CRST_UNASSIGNED)
    && (forall e :: e in r && e.0 in s ==> Below(lv, e.1, l))
  }

  lemma OpenStays(lv: Levels, r: Graph<CrstType>, s: set<CrstType>, l: nat, t: set<CrstType>, k: nat)
    requires Open(lv, r, s, l) && s !! t && forall c :: c in t ==> c in lv && lv[c] == CRST_UNASSIGNED
    ensures Open(Assign(lv, t, k), r, s, l)
  {
  }

  /** The next level to be given out. */
  function Free(currLevel: nat, madeProgress: bool): nat {
    if madeProgress then currLevel + 1 else currLevel
  }

  /** A group of which some level-sharing facts are needed. */
  lemma GroupAlone(tool: CrstTypeTool, g: CrstTypeGroup)
    requires tool.Grouped() && g in tool.groups
    ensures NoDuplicates(g.members)
    ensures forall c :: c in g.members ==> c in tool.crsts && c.group == g
    ensures forall c :: c in tool.crsts && c.group == g ==> c in g.members
    ensures forall h :: h in tool.groups && h != g ==> Elements(h.members) !! Elements(g.members)
  {
  }

  lemma GroupRanks(tool: CrstTypeTool, r: Graph<CrstType>, lv: Levels, g: CrstTypeGroup, l: nat, free: nat)
    requires tool.Grouped() && g in tool.groups && Ranked(lv, GroupsOf(tool), r, free) && l <= free
    requires Open(lv, r, Elements(g.members), l)
    ensures Ranked(Assign(lv, Elements(g.members), free), GroupsOf(tool), r, free + 1)
  {
    hide Ranked, CrstTypeTool.Grouped;
    GroupAlone(tool, g);
    RankedDomain(lv, GroupsOf(tool), r, free);
    AssignRanks(lv, GroupsOf(tool), r, free, Elements(g.members));
  }

  lemma RankedDomain(lv: Levels, grp: Groups, r: Graph<CrstType>, free: nat)
    requires Ranked(lv, grp, r, free)
    ensures lv.Keys == grp.Keys
  {
  }

  /** Second part of a pass: every group that is ready gets a level of its own. */
  method RankGroups(tool: CrstTypeTool, deferredGroups: seq<CrstTypeGroup>, level: nat, progress: bool, unsorted: int,
                    ghost r: Graph<CrstType>, ghost l: nat)
    returns (ok: bool, currLevel: nat, madeProgress: bool, unsorted': int)
    requires tool.Grouped() && NoDuplicates(deferredGroups) && l <= Free(level, progress)
    requires Ranked(LevelsOf(tool), GroupsOf(tool), r, Free(level, progress))
    requires forall g :: g in deferredGroups ==> g in tool.groups && Open(LevelsOf(tool), r, Elements(g.members), l)
    requires forall g, c :: g in deferredGroups && c in g.members ==> c.acquiredBefore == []
    modifies (set c | c in tool.crsts)`level
    ensures ok && Ranked(LevelsOf(tool), GroupsOf(tool), r, Free(currLevel, madeProgress))
    ensures Free(level, progress) <= Free(currLevel, madeProgress)
    ensures (madeProgress <==> progress || deferredGroups != []) && (deferredGroups == [] ==> currLevel == level)
    ensures unsorted' - |Unassigned(tool)| == unsorted - |old(Unassigned(tool))|
    ensures forall c :: c in tool.crsts && old(c.level) != CRST_UNASSIGNED ==> c.level == old(c.level)
    ensures forall c :: c in tool.crsts && c.group in deferredGroups ==> c.level != CRST_UNASSIGNED
  {
    hide Ranked, Open, CrstTypeTool.Grouped;
    currLevel, madeProgress, unsorted' := level, progress, unsorted;
    for i := 0 to |deferredGroups|
      invariant Ranked(LevelsOf(tool), GroupsOf(tool), r, Free(currLevel, madeProgress))
      invariant Free(level, progress) <= Free(currLevel, madeProgress)
      invariant (madeProgress <==> progress || i > 0) && (i == 0 ==> currLevel == level)
      invariant unsorted' - |Unassigned(tool)| == unsorted - |old(Unassigned(tool))|
      invariant forall j :: i <= j < |deferredGroups| ==> Open(LevelsOf(tool), r, Elements(deferredGroups[j].members), l)
      invariant forall c :: c in tool.crsts && old(c.level) != CRST_UNASSIGNED ==> c.level == old(c.level)
      invariant forall c :: c in tool.crsts && c.group in deferredGroups[..i] ==> c.level != CRST_UNASSIGNED
    {
      var group := deferredGroups[i];
      ghost var lv, members := LevelsOf(tool), Elements(group.members);
      GroupAlone(tool, group);
      OpenUnassigned(lv, r, members, l);
      GroupRanks(tool, r, lv, group, l, Free(currLevel, madeProgress));
      if madeProgress {
        currLevel := currLevel + 1;
      }
      forall c | c in group.members ensures c.level == CRST_UNASSIGNED { assert c in members && lv[c] == c.level; }
      ok, unsorted' := RankGroup(tool, group, currLevel, unsorted');
      madeProgress := true;
      forall j | i < j < |deferredGroups| ensures Open(LevelsOf(tool), r, Elements(deferredGroups[j].members), l) {
        assert deferredGroups[j] in deferredGroups && deferredGroups[j] != group;
        OpenStays(lv, r, Elements(deferredGroups[j].members), l, members, currLevel);
      }
      forall c | c in tool.crsts ensures c.level == Assign(lv, members, currLevel)[c] { assert c.level == LevelsOf(tool)[c]; }
    }
    ok := true;
  }

  lemma OpenUnassigned(lv: Levels, r: Graph<CrstType>, s: set<CrstType>, l: nat)
    requires Open(lv, r, s, l)
    ensures s != {} && forall c :: c in s ==> c in lv && lv[c] == CRST_UNASSIGNED
  {
  }

  type Lists = map<CrstType, seq<CrstType>>

  /** The lists of rules. */
  ghost function ListsOf(tool: CrstTypeTool): Lists
    reads tool`crsts, tool.crsts`acquiredBefore
  {
    map c | c in tool.crsts :: c.acquiredBefore
  }

  /** The rules of a type without rank are those of `r` that lead to types without rank; before the first pass they may
      lead to unordered types as well. */
  ghost predicate RulesLeft(lv: Levels, rules: Lists, r: Graph<CrstType>, pruned: bool) {
    && lv.Keys == rules.Keys
    && (forall c :: c in lv && lv[c] == CRST_UNASSIGNED ==> RulesOf(lv, rules[c], r, pruned, c))
    && (forall e :: e in r && e.0 in lv && lv[e.0] == CRST_UNASSIGNED ==> LeadsBelow(lv, rules[e.0], e.1))
  }

  predicate RulesOf(lv: Levels, list: seq<CrstType>, r: Graph<CrstType>, pruned: bool, c: CrstType) {
    forall d :: d in list ==> d in lv && (c, d) in r && (pruned ==> lv[d] == CRST_UNASSIGNED)
  }

  /** A rule is still there, or what it leads to is not waiting for a rank. */
  predicate LeadsBelow(lv: Levels, list: seq<CrstType>, d: CrstType) {
    d in lv && (d in list || lv[d] != CRST_UNASSIGNED)
  }

  /** Ranking more types leaves the rules of the others good. */
  lemma RulesLater(lv: Levels, lv': Levels, rules: Lists, r: Graph<CrstType>, pruned: bool)
    requires RulesLeft(lv, rules, r, pruned) && lv'.Keys == lv.Keys
    requires forall c :: c in lv && lv[c] != CRST_UNASSIGNED ==> lv'[c] == lv[c]
    ensures RulesLeft(lv', rules, r, false)
  {
    forall c | c in lv' && lv'[c] == CRST_UNASSIGNED ensures RulesOf(lv', rules[c], r, false, c) {
      assert RulesOf(lv, rules[c], r, pruned, c);
    }
    forall e | e in r && e.0 in lv' && lv'[e.0] == CRST_UNASSIGNED ensures LeadsBelow(lv', rules[e.0], e.1) {
      assert LeadsBelow(lv, rules[e.0], e.1);
    }
  }

  /** Dropping the rules that lead to ranked or unordered types leaves those that still matter. */
  lemma RulesPruned(lv: Levels, rules: Lists, rules': Lists, r: Graph<CrstType>)
    requires RulesLeft(lv, rules, r, false) && rules'.Keys == rules.Keys
    requires forall c :: c in lv && lv[c] == CRST_UNASSIGNED ==> IsPruned(lv, rules[c], rules'[c])
    ensures RulesLeft(lv, rules', r, true)
  {
    forall c | c in lv && lv[c] == CRST_UNASSIGNED ensures RulesOf(lv, rules'[c], r, true, c) {
      assert RulesOf(lv, rules[c], r, false, c) && IsPruned(lv, rules[c], rules'[c]);
    }
    forall e | e in r && e.0 in lv && lv[e.0] == CRST_UNASSIGNED ensures LeadsBelow(lv, rules'[e.0], e.1) {
      assert LeadsBelow(lv, rules[e.0], e.1) && IsPruned(lv, rules[e.0], rules'[e.0]);
    }
  }

  /** `kept` has exactly those types of `list` that have no rank. */
  predicate IsPruned(lv: Levels, list: seq<CrstType>, kept: seq<CrstType>) {
    && (forall d :: d in list && d in lv && lv[d] == CRST_UNASSIGNED ==> d in kept)
    && (forall d :: d in kept ==> d in list && d in lv && lv[d] == CRST_UNASSIGNED)
  }

  /** Types that are ready are open. */
  lemma ReadyOpen(tool: CrstTypeTool, r: Graph<CrstType>, pruned: bool, free: nat, s: set<CrstType>)
    requires RulesLeft(LevelsOf(tool), ListsOf(tool), r, pruned) && Ranked(LevelsOf(tool), GroupsOf(tool), r, free)
    requires s != {} && s <= Ready(tool)
    ensures Open(LevelsOf(tool), r, s, free)
  {
    forall e | e in r && e.0 in s ensures Below(LevelsOf(tool), e.1, free) {
      assert e.0 in Ready(tool) && LevelsOf(tool)[e.0] == CRST_UNASSIGNED && ListsOf(tool)[e.0] == [];
      assert LeadsBelow(LevelsOf(tool), ListsOf(tool)[e.0], e.1);
      assert LevelsOf(tool)[e.1] == e.1.level;
    }
  }

  /** All members of a group are ready together. */
  lemma GroupReady(tool: CrstTypeTool, r: Graph<CrstType>, free: nat, c: CrstType)
    requires tool.Grouped() && SameRules(tool) && Ranked(LevelsOf(tool), GroupsOf(tool), r, free)
    requires c in Ready(tool) && c.group != null
    ensures c.group in tool.groups && c in c.group.members && Elements(c.group.members) <= Ready(tool)
  {
    forall d | d in c.group.members ensures d in Ready(tool) {
      assert d in tool.crsts && d.group == c.group;
      assert GroupsOf(tool)[d] == GroupsOf(tool)[c];
      assert LevelsOf(tool)[d] == LevelsOf(tool)[c];
      assert d.acquiredBefore == c.acquiredBefore;
    }
  }

  /** While types without rank remain, one of them is ready, or their rules contain a cycle. */
  lemma SomethingReady(tool: CrstTypeTool, r: Graph<CrstType>)
    requires RulesLeft(LevelsOf(tool), ListsOf(tool), r, true) && Unassigned(tool) != {} && !Cyclic(r)
    ensures Ready(tool) != {}
  {
    if Ready(tool) == {} {
      var s := Unassigned(tool);
      forall c | c in s ensures Continues(r, s, c) {
        assert c !in Ready(tool);
        var e := (c, c.acquiredBefore[0]);
        assert LevelsOf(tool)[c] == CRST_UNASSIGNED && ListsOf(tool)[c] == c.acquiredBefore;
        assert RulesOf(LevelsOf(tool), c.acquiredBefore, r, true, c) && e.1 in c.acquiredBefore;
        assert LevelsOf(tool)[e.1] == e.1.level;
        assert e in r && e.0 == c && e.1 in s;
      }
      SuccessorsCycle(r, s);
    }
  }

  /** The types of a list that have no rank. */
  function Kept(lv: Levels, s: seq<CrstType>): (k: seq<CrstType>)
    ensures forall d :: d in k ==> d in s && d in lv && lv[d] == CRST_UNASSIGNED
    ensures forall d :: d in s && d in lv && lv[d] == CRST_UNASSIGNED ==> d in k
  {
    if s == [] then [] else Kept(lv, s[..|s| - 1]) + KeptOne(lv, s[|s| - 1])
  }

  function KeptOne(lv: Levels, d: CrstType): seq<CrstType> {
    if d in lv && lv[d] == CRST_UNASSIGNED then [d] else []
  }

  /** The lists of rules after the rules of types without rank have been pruned. */
  function PrunedLists(lv: Levels, rules: Lists): Lists {
    map c | c in rules :: if c in lv && lv[c] == CRST_UNASSIGNED then Kept(lv, rules[c]) else rules[c]
  }

  method FindAll(tool: CrstTypeTool, list: seq<CrstType>) returns (kept: seq<CrstType>)
    requires forall d :: d in list ==> d in tool.crsts
    ensures kept == Kept(LevelsOf(tool), list)
  {
    kept := [];
    for i := 0 to |list|
      invariant kept == Kept(LevelsOf(tool), list[..i])
    {
      assert list[..i + 1][..i] == list[..i] && list[i] in list;
      if list[i].level == CRST_UNASSIGNED {
        kept := kept + [list[i]];
      }
    }
    assert list[..|list|] == list;
  }

  /** Last part of a pass: rules that lead to ranked or unordered types are dropped. */
  method PruneRules(tool: CrstTypeTool)
    requires NoDuplicates(tool.crsts) && RulesInside(LevelsOf(tool), ListsOf(tool))
    modifies (set c | c in tool.crsts)`acquiredBefore
    ensures ListsOf(tool) == PrunedLists(LevelsOf(tool), old(ListsOf(tool)))
  {
    hide Kept, PrunedLists, LevelsOf, RulesInside;
    ghost var lv, rules := LevelsOf(tool), ListsOf(tool);
    PrunedKeys(lv, rules);
    ghost var pruned := PrunedLists(lv, rules);
    for i := 0 to |tool.crsts|
      invariant forall j :: 0 <= j < i ==> tool.crsts[j].acquiredBefore == pruned[tool.crsts[j]]
      invariant forall j :: i <= j < |tool.crsts| ==> tool.crsts[j].acquiredBefore == rules[tool.crsts[j]]
    {
      PruneType(tool, tool.crsts[i], rules);
    }
    forall c | c in tool.crsts ensures c.acquiredBefore == pruned[c] {
      var j :| 0 <= j < |tool.crsts| && tool.crsts[j] == c;
    }
  }

  lemma PrunedKeys(lv: Levels, rules: Lists)
    ensures PrunedLists(lv, rules).Keys == rules.Keys
  {
    hide Kept;
  }

  method PruneType(tool: CrstTypeTool, crst: CrstType, ghost rules: Lists)
    requires crst in tool.crsts && RulesInside(LevelsOf(tool), rules) && crst in rules && crst.acquiredBefore == rules[crst]
    modifies crst`acquiredBefore
    ensures crst.acquiredBefore == PrunedLists(LevelsOf(tool), rules)[crst]
  {
    hide Kept;
    assert crst in LevelsOf(tool) && LevelsOf(tool)[crst] == crst.level;
    if crst.level == CRST_UNASSIGNED {
      forall d | d in crst.acquiredBefore ensures d in tool.crsts { assert d in LevelsOf(tool); }
      var prunedCrsts := FindAll(tool, crst.acquiredBefore);
      crst.acquiredBefore := prunedCrsts;
    }
  }

  predicate RulesInside(lv: Levels, rules: Lists) {
    forall c, d :: c in lv && c in rules && lv[c] == CRST_UNASSIGNED && d in rules[c] ==> d in lv
  }

  /** Groups of types that are ready can be ranked as a whole. */
  lemma GroupsOpen(tool: CrstTypeTool, r: Graph<CrstType>, pruned: bool, free: nat)
    requires tool.Grouped() && SameRules(tool)
    requires RulesLeft(LevelsOf(tool), ListsOf(tool), r, pruned) && Ranked(LevelsOf(tool), GroupsOf(tool), r, free)
    ensures forall c :: c in Ready(tool) && c.group != null ==>
              c.group in tool.groups && Elements(c.group.members) <= Ready(tool) && Open(LevelsOf(tool), r, Elements(c.group.members), free)
  {
    hide Ranked, RulesLeft, SameRules, CrstTypeTool.Grouped, Open;
    forall c | c in Ready(tool) && c.group != null
      ensures c.group in tool.groups && Elements(c.group.members) <= Ready(tool) && Open(LevelsOf(tool), r, Elements(c.group.members), free)
    {
      GroupReady(tool, r, free, c);
      assert c in Elements(c.group.members);
      ReadyOpen(tool, r, pruned, free, Elements(c.group.members));
    }
  }

  /** The singletons of a pass take the next level. */
  lemma SingletonsRank(tool: CrstTypeTool, r: Graph<CrstType>, pruned: bool, free: nat, s: set<CrstType>)
    requires RulesLeft(LevelsOf(tool), ListsOf(tool), r, pruned) && Ranked(LevelsOf(tool), GroupsOf(tool), r, free)
    requires s == set c | c in Ready(tool) && c.group == null
    ensures Ranked(Assign(LevelsOf(tool), s, free), GroupsOf(tool), r, Free(free, s != {}))
  {
    hide Ranked, RulesLeft;
    var lv := LevelsOf(tool);
    if s != {} {
      ReadyOpen(tool, r, pruned, free, s);
      AssignRanks(lv, GroupsOf(tool), r, free, s);
    } else {
      assert Assign(lv, s, free) == lv;
    }
  }

  /** One pass of the ranking. */
  method RankPass(tool: CrstTypeTool, level: nat, unsorted: int, ghost r: Graph<CrstType>, ghost pruned: bool)
    returns (ok: bool, currLevel: nat, madeProgress: bool, unsorted': int)
    requires tool.Grouped() && SameRules(tool)
    requires RulesLeft(LevelsOf(tool), ListsOf(tool), r, pruned) && Ranked(LevelsOf(tool), GroupsOf(tool), r, level)
    modifies (set c | c in tool.crsts)`level
    ensures ok && Ranked(LevelsOf(tool), GroupsOf(tool), r, Free(currLevel, madeProgress))
    ensures madeProgress <==> old(Ready(tool)) != {}
    ensures unsorted' - |Unassigned(tool)| == unsorted - |old(Unassigned(tool))|
    ensures forall c :: c in tool.crsts && old(c.level) != CRST_UNASSIGNED ==> c.level == old(c.level)
    ensures forall c :: c in old(Ready(tool)) ==> c.level != CRST_UNASSIGNED
    ensures !madeProgress ==> currLevel == level
    ensures RulesLeft(LevelsOf(tool), ListsOf(tool), r, false)
  {
    hide Ranked, RulesLeft, SameRules, CrstTypeTool.Grouped, Open, ListsGroups, NoDuplicates, ListsOf, GroupsOf, Assign;
    assert NoDuplicates(tool.crsts) by { TypesOnce(tool); }
    ghost var lv, rules, ready := LevelsOf(tool), ListsOf(tool), Ready(tool);
    GroupsOpen(tool, r, pruned, level);
    SingletonsRank(tool, r, pruned, level, set c | c in ready && c.group == null);
    var deferredGroups;
    ghost var s;
    madeProgress, unsorted', deferredGroups, s := RankSingletons(tool, level, unsorted);
    Listed(deferredGroups, ready);
    DeferredOpen(tool, deferredGroups, ready, lv, r, s, level);
    ok, currLevel, madeProgress, unsorted' := RankGroups(tool, deferredGroups, level, madeProgress, unsorted', r, level);
    assert ListsOf(tool) == rules;
    RulesLater(lv, LevelsOf(tool), rules, r, pruned);
  }

  /** Ranking singletons leaves the groups that were put aside open. */
  lemma DeferredOpen(tool: CrstTypeTool, deferredGroups: seq<CrstTypeGroup>, ready: set<CrstType>, lv: Levels, r: Graph<CrstType>,
                     s: set<CrstType>, level: nat)
    requires tool.Grouped() && ListsGroups(deferredGroups, ready)
    requires forall c :: c in ready ==> c.acquiredBefore == []
    requires forall c :: c in ready && c.group != null ==>
               c.group in tool.groups && Elements(c.group.members) <= ready && Open(lv, r, Elements(c.group.members), level)
    requires forall c :: c in s ==> c.group == null && c in lv && lv[c] == CRST_UNASSIGNED
    ensures forall g :: g in deferredGroups ==> g in tool.groups && Open(Assign(lv, s, level), r, Elements(g.members), level)
    ensures forall g, c :: g in deferredGroups && c in g.members ==> c.acquiredBefore == []
  {
    hide CrstTypeTool.Grouped, Open, ListsGroups, Assign;
    Listed(deferredGroups, ready);
    forall g | g in deferredGroups
      ensures g in tool.groups && Open(Assign(lv, s, level), r, Elements(g.members), level)
      ensures forall c :: c in g.members ==> c.acquiredBefore == []
    {
      var d :| d in ready && d.group == g;
      GroupAlone(tool, g);
      OpenStays(lv, r, Elements(g.members), level, s, level);
      assert forall c :: c in g.members ==> c in Elements(g.members);
    }
  }

  lemma TypesOnce(tool: CrstTypeTool)
    requires tool.Grouped()
    ensures NoDuplicates(tool.crsts)
  {
  }

  lemma Listed(gs: seq<CrstTypeGroup>, ready: set<CrstType>)
    requires ListsGroups(gs, ready)
    ensures NoDuplicates(gs)
    ensures forall g :: g in gs ==> exists c :: c in ready && c.group == g
    ensures forall c :: c in ready && c.group != null ==> c.group in gs
    ensures gs == [] <==> forall c :: c in ready ==> c.group == null
  {
    if gs != [] { assert gs[0] in gs; }
  }

  lemma PrunedLeft(lv: Levels, rules: Lists, r: Graph<CrstType>)
    requires RulesLeft(lv, rules, r, false)
    ensures RulesInside(lv, rules) && RulesLeft(lv, PrunedLists(lv, rules), r, true)
  {
    hide Kept;
    forall c | c in lv && lv[c] == CRST_UNASSIGNED ensures IsPruned(lv, rules[c], PrunedLists(lv, rules)[c]) {
      assert RulesOf(lv, rules[c], r, false, c);
    }
    forall c, d | c in lv && lv[c] == CRST_UNASSIGNED && d in rules[c] ensures d in lv {
      assert RulesOf(lv, rules[c], r, false, c);
    }
    RulesPruned(lv, rules, PrunedLists(lv, rules), r);
  }

  /** Pruning treats the members of a group alike. */
  lemma PrunedSame(tool: CrstTypeTool, rules: Lists, r: Graph<CrstType>, free: nat)
    requires tool.Grouped() && Ranked(LevelsOf(tool), GroupsOf(tool), r, free)
    requires rules.Keys == Elements(tool.crsts) && ListsOf(tool) == PrunedLists(LevelsOf(tool), rules)
    requires forall g, c, d :: g in tool.groups && c in g.members && d in g.members ==> c in rules && d in rules && rules[c] == rules[d]
    ensures SameRules(tool)
  {
    hide Ranked, Kept, CrstTypeTool.Grouped;
    forall g, c, d | g in tool.groups && c in g.members && d in g.members ensures c.acquiredBefore == d.acquiredBefore {
      GroupAlone(tool, g);
      SameLevel(tool, r, free, c, d);
      assert c.acquiredBefore == ListsOf(tool)[c] && d.acquiredBefore == ListsOf(tool)[d];
    }
  }

  lemma SameListed(tool: CrstTypeTool)
    requires tool.Grouped() && SameRules(tool)
    ensures ListsOf(tool).Keys == Elements(tool.crsts)
    ensures forall g, c, d :: g in tool.groups && c in g.members && d in g.members ==>
              c in ListsOf(tool) && d in ListsOf(tool) && ListsOf(tool)[c] == ListsOf(tool)[d]
  {
  }

  method Prune(tool: CrstTypeTool, ghost r: Graph<CrstType>, ghost free: nat)
    requires tool.Grouped() && SameRules(tool)
    requires RulesLeft(LevelsOf(tool), ListsOf(tool), r, false) && Ranked(LevelsOf(tool), GroupsOf(tool), r, free)
    modifies (set c | c in tool.crsts)`acquiredBefore
    ensures RulesLeft(LevelsOf(tool), ListsOf(tool), r, true) && SameRules(tool)
  {
    hide Ranked, RulesLeft, CrstTypeTool.Grouped, NoDuplicates, SameRules, RulesInside, PrunedLists, LevelsOf, ListsOf, GroupsOf;
    assert NoDuplicates(tool.crsts) by { TypesOnce(tool); }
    ghost var rules := ListsOf(tool);
    SameListed(tool);
    PrunedLeft(LevelsOf(tool), rules, r);
    PruneRules(tool);
    PrunedSame(tool, rules, r, free);
  }

  lemma SameLevel(tool: CrstTypeTool, r: Graph<CrstType>, free: nat, c: CrstType, d: CrstType)
    requires Ranked(LevelsOf(tool), GroupsOf(tool), r, free)
    requires c in tool.crsts && d in tool.crsts && c.group != null && c.group == d.group
    ensures c.level == d.level
  {
    assert GroupsOf(tool)[c] == GroupsOf(tool)[d];
    assert LevelsOf(tool)[c] == c.level && LevelsOf(tool)[d] == d.level;
  }

  // The whole ranking

  datatype LevelResult = Levelled | DifferingRulesets | CycleDetected

  /** Before the ranking types have no rank; unordered ones are in no group. */
  ghost predicate Unranked(tool: CrstTypeTool)
    reads tool`crsts, tool.crsts
  {
    forall c :: c in tool.crsts ==> c.level == CRST_UNASSIGNED || (c.level == CRST_UNORDERED && c.group == null)
  }

  /** Some types have no rank yet, but under each of them something may be acquired. */
  ghost predicate Stuck(tool: CrstTypeTool)
    reads tool`crsts, tool.crsts
  {
    Unassigned(tool) != {} && Ready(tool) == {}
  }

  lemma StartRanking(tool: CrstTypeTool)
    requires tool.Grouped() && RulesClosed(tool) && Unranked(tool)
    ensures Ranked(LevelsOf(tool), GroupsOf(tool), Rules(tool), 0)
    ensures RulesLeft(LevelsOf(tool), ListsOf(tool), Rules(tool), false)
  {
    var lv, grp, r := LevelsOf(tool), GroupsOf(tool), Rules(tool);
    forall e | e in r ensures e.0 in tool.crsts && e.1 in e.0.acquiredBefore && e.1 in tool.crsts && RuleKept(lv, e) { }
    forall c | c in lv && lv[c] == CRST_UNASSIGNED ensures RulesOf(lv, ListsOf(tool)[c], r, false, c) { }
  }

  lemma Fewer(tool: CrstTypeTool, u: set<CrstType>, ready: set<CrstType>)
    requires Unassigned(tool) <= u && ready <= u && ready != {} && forall c :: c in ready ==> c.level != CRST_UNASSIGNED
    ensures |Unassigned(tool)| < |u|
  {
    var c :| c in ready;
    assert Unassigned(tool) <= u - {c};
    Smaller(Unassigned(tool), u - {c});
  }

  lemma {:induction false} Smaller<T>(s: set<T>, t: set<T>)
    requires s <= t
    ensures |s| <= |t|
  {
    if s != {} {
      var x :| x in s;
      Smaller(s - {x}, t - {x});
    }
  }

  /** Ranks all types, lowest level first.  It fails exactly if it cannot even start: if some types are to be ranked, but
      each of them has a rule that leads to another type or to an unordered one. */
  method LevelCrsts(tool: CrstTypeTool) returns (result: LevelResult, ghost levels: nat)
    requires tool.Grouped() && RulesClosed(tool) && SameRules(tool) && Unranked(tool) && !Cyclic(Rules(tool))
    modifies (set c | c in tool.crsts)`level, (set c | c in tool.crsts)`acquiredBefore
    ensures result == CycleDetected <==> old(Stuck(tool))
    ensures result != DifferingRulesets
    ensures result == Levelled ==> Unassigned(tool) == {} && Ranked(LevelsOf(tool), GroupsOf(tool), old(Rules(tool)), levels)
    ensures forall c :: c in tool.crsts && old(c.level) == CRST_UNORDERED ==> c.level == CRST_UNORDERED
  {
    hide Ranked, RulesLeft, CrstTypeTool.Grouped, NoDuplicates, SameRules, Rules, Cyclic, LevelsOf, ListsOf, GroupsOf;
    result, levels := DifferingRulesets, 0;
    assert NoDuplicates(tool.crsts) by { TypesOnce(tool); }
    ghost var r := Rules(tool);
    StartRanking(tool);
    var unsorted := CountUnsorted(tool);
    var currLevel := 0;
    ghost var pruned := false;
    while unsorted > 0
      invariant 0 <= currLevel && unsorted == |Unassigned(tool)| && SameRules(tool)
      invariant Ranked(LevelsOf(tool), GroupsOf(tool), r, currLevel)
      invariant RulesLeft(LevelsOf(tool), ListsOf(tool), r, pruned)
      invariant pruned ==> !old(Stuck(tool))
      invariant !pruned ==> Unassigned(tool) == old(Unassigned(tool)) && Ready(tool) == old(Ready(tool))
      invariant forall c :: c in tool.crsts && old(c.level) == CRST_UNORDERED ==> c.level == CRST_UNORDERED
      decreases unsorted
    {
      ghost var u, ready := Unassigned(tool), Ready(tool);
      if pruned { SomethingReady(tool, r); }
      var ok, madeProgress;
      ok, currLevel, madeProgress, unsorted := RankPass(tool, currLevel, unsorted, r, pruned);
      if !ok {
        return;
      }
      if !madeProgress {
        return CycleDetected, 0;
      }
      Fewer(tool, u, ready);
      Prune(tool, r, Free(currLevel, madeProgress));
      pruned := true;
      currLevel := currLevel + 1;
    }
    return Levelled, currLevel;
  }

  ghost predicate LevelUsed(tool: CrstTypeTool, l: int)
    reads tool`crsts, tool.crsts`level
  {
    exists c :: c in tool.crsts && c.level == l
  }

  /** What the ranking guarantees to the users of the levels. */
  lemma RankingIsCorrect(tool: CrstTypeTool, r: Graph<CrstType>, levels: nat)
    requires tool.Grouped() && Unassigned(tool) == {} && Ranked(LevelsOf(tool), GroupsOf(tool), r, levels)
    ensures forall e :: e in r ==>
              e.0 in tool.crsts && e.1 in tool.crsts && (e.0.level >= 0 && e.1.level >= 0 ==> e.0.level > e.1.level)
    ensures forall c :: c in tool.crsts ==> c.level == CRST_UNORDERED || 0 <= c.level < levels
    ensures forall a, b :: a in tool.crsts && b in tool.crsts && a.level >= 0 && (a.group != null || b.group != null) ==>
              (a.level == b.level <==> a.group == b.group)
    ensures forall l :: 0 <= l < levels ==> LevelUsed(tool, l)
  {
    var lv, grp := LevelsOf(tool), GroupsOf(tool);
    assert forall c :: c in tool.crsts ==> lv[c] == c.level && grp[c] == c.group && c !in Unassigned(tool);
    forall e | e in r ensures e.0 in tool.crsts && e.1 in tool.crsts && (e.0.level >= 0 && e.1.level >= 0 ==> e.0.level > e.1.level) {
      assert RuleKept(lv, e);
    }
    forall l | 0 <= l < levels ensures LevelUsed(tool, l) {
      assert Used(lv, l);
      var c :| c in lv && lv[c] == l;
      assert c.level == l;
    }
  }

  // The tool as a whole

  /** Every type that is to be ranked has a rule, its own or one of its group. */
  ghost predicate Blocked(tool: CrstTypeTool)
    requires tool.Grouped()
    reads tool, tool.crsts, tool.groups, set c | c in tool.crsts && c.group != null :: c.group
  {
    Unassigned(tool) != {} && forall c :: c in Unassigned(tool) ==> HasRule(Rules(tool), Classes(tool)[c])
  }

  ghost predicate HasRule(r: Graph<CrstType>, s: set<CrstType>) {
    exists e :: e in r && e.0 in s
  }

  lemma BlockedIsStuck(tool: CrstTypeTool, r: Graph<CrstType>, u: set<CrstType>)
    requires tool.Grouped() && Over(r, Classes(tool)) && Normalizes(Rules(tool), r, Classes(tool)) && u == Unassigned(tool)
    ensures Stuck(tool) <==> u != {} && forall c :: c in u ==> HasRule(r, Classes(tool)[c])
  {
    hide Normalizes, Over;
    ClassesPartition(tool);
    forall c | c in u ensures c.acquiredBefore != [] <==> HasRule(r, Classes(tool)[c]) {
      if c.acquiredBefore != [] {
        var d := c.acquiredBefore[0];
        assert d in c.acquiredBefore && (c, d) in Rules(tool);
        var f := EdgeOfClass(Rules(tool), r, Classes(tool), c, d);
      }
      if HasRule(r, Classes(tool)[c]) {
        var e :| e in r && e.0 in Classes(tool)[c];
        assert c in Classes(tool)[e.0];
        ClassHasEdge(Rules(tool), r, Classes(tool), e, c);
      }
    }
    forall c | c in tool.crsts ensures c in Ready(tool) <==> c in u && c.acquiredBefore == [] { }
  }

  /** What the tool makes of its definitions: the exit code is 0 exactly if they are acceptable and the ranking can start,
      5 exactly if an exception ends the tool, in the checks or in the ranking, and 3 if they are rejected. */
  method Process(tool: CrstTypeTool) returns (exitCode: int, ghost levels: nat)
    requires tool.Grouped() && RulesClosed(tool)
    requires forall c :: c in tool.crsts ==> c.level == CRST_UNASSIGNED || c.level == CRST_UNORDERED
    modifies (set c | c in tool.crsts)`level, (set c | c in tool.crsts)`acquiredBefore
    ensures exitCode == 0 <==> old(Acceptable(tool)) && !old(Blocked(tool))
    ensures exitCode == 5 <==> old(CrashesFirst(tool)) || (old(Acceptable(tool)) && old(Blocked(tool)))
    ensures exitCode == 3 <==> !old(Acceptable(tool)) && !old(CrashesFirst(tool))
    ensures exitCode == 0 ==> Unassigned(tool) == {} && Ranked(LevelsOf(tool), GroupsOf(tool), old(Rules(tool)), levels)
  {
    hide Ranked, SameRules, Cyclic, Classes, Rules, Normalizes, Over, Quotient, CrstTypeTool.Grouped, Passes;
    levels := 0;
    ghost var r, u := Rules(tool), Unassigned(tool);
    RulesOver(tool);
    ghost var ok := Acceptable(tool);
    assert ok ==> Unranked(tool);
    var verdict := ValidateCrsts(tool);
    if verdict == Crashed {
      return 5, levels;
    }
    if verdict == Rejected {
      return 3, levels;
    }
    BlockedIsStuck(tool, r, u);
    ghost var n := Rules(tool);
    var result;
    result, levels := LevelCrsts(tool);
    if result != Levelled {
      return 5, levels;
    }
    RankedForFewer(LevelsOf(tool), GroupsOf(tool), n, r, Classes(tool), levels);
    return 0, levels;
  }

  lemma RankedForFewer(lv: Levels, grp: Groups, n: Graph<CrstType>, r: Graph<CrstType>, part: map<CrstType, set<CrstType>>, levels: nat)
    requires Ranked(lv, grp, n, levels) && Over(r, part) && Normalizes(n, r, part)
    ensures Ranked(lv, grp, r, levels)
  {
  }

  /** The classes of the types that are to be ranked. */
  ghost function Waiting(tool: CrstTypeTool, part: map<CrstType, set<CrstType>>): set<set<CrstType>>
    reads tool`crsts, tool.crsts`level
    requires part.Keys == Elements(tool.crsts)
  {
    set d | d in Unassigned(tool) :: part[d]
  }

  /** A class that has a rule leads to the class of some type that is to be ranked. */
  lemma ClassContinues(tool: CrstTypeTool, r: Graph<CrstType>, part: map<CrstType, set<CrstType>>, c: CrstType)
    requires IsPartition(part) && Over(r, part) && c in part && part.Keys == Elements(tool.crsts) && HasRule(r, part[c])
    requires forall d :: d in tool.crsts ==> d.level == CRST_UNASSIGNED || d.level == CRST_UNORDERED
    requires forall e :: e in r ==> e.1.level != CRST_UNORDERED
    ensures Continues(Quotient(r, part), Waiting(tool, part), part[c])
  {
    var e :| e in r && e.0 in part[c];
    assert part[e.0] == part[c] && e.1 in Unassigned(tool);
    var f := (part[c], part[e.1]);
    assert f in Quotient(r, part) && f.0 == part[c];
  }

  /** If no rule leads to an unordered type, the ranking is never blocked. */
  lemma NeverBlocked(tool: CrstTypeTool)
    requires tool.Grouped() && RulesClosed(tool) && Acceptable(tool)
    requires forall c :: c in tool.crsts ==> c.level == CRST_UNASSIGNED || c.level == CRST_UNORDERED
    requires forall e :: e in Rules(tool) ==> e.1.level != CRST_UNORDERED
    ensures !Blocked(tool)
  {
    hide Continues, Cyclic, HasRule, CrstTypeTool.Grouped, Rules;
    if Blocked(tool) {
      var r, part := Rules(tool), Classes(tool);
      RulesOver(tool);
      ClassesPartition(tool);
      var s := Waiting(tool, part);
      forall x | x in s ensures Continues(Quotient(r, part), s, x) {
        var c :| c in Unassigned(tool) && part[c] == x;
        ClassContinues(tool, r, part, c);
      }
      var c :| c in Unassigned(tool);
      assert part[c] in s;
      SuccessorsCycle(Quotient(r, part), s);
    }
  }

  /** It is blocked when the only rule leads to an unordered type, although the definitions are accepted. */
  lemma BlockedByUnordered(tool: CrstTypeTool, a: CrstType, b: CrstType)
    requires tool.Grouped() && tool.crsts == [a, b] && a.defined && b.defined && a.group == null && b.group == null
    requires a.level == CRST_UNASSIGNED && a.acquiredBefore == [b] && b.level == CRST_UNORDERED && b.acquiredBefore == []
    ensures RulesClosed(tool) && Acceptable(tool) && Blocked(tool)
  {
    hide Cyclic;
    var r: Graph<CrstType>, part: map<CrstType, set<CrstType>> := Rules(tool), Classes(tool);
    assert a != b;
    OneRule(tool, a, b);
    RulesOver(tool);
    assert part[a] == {a} && part[b] == {b};
    assert Quotient(r, part) == {(part[a], part[b])};
    assert a in part[a] && a !in part[b];
    OneEdge(Quotient(r, part), part[a], part[b]);
    assert a in Unassigned(tool);
    forall c | c in Unassigned(tool) ensures HasRule(r, part[c]) {
      var e := (a, b);
      assert c == a && e in r && e.0 in part[a];
    }
  }

  lemma OneRule(tool: CrstTypeTool, a: CrstType, b: CrstType)
    requires tool.crsts == [a, b] && a.acquiredBefore == [b] && b.acquiredBefore == []
    ensures RulesClosed(tool) && Rules(tool) == {(a, b)}
  {
    assert b in a.acquiredBefore && a in tool.crsts;
  }

  lemma OneEdge<N>(q: Graph<N>, x: N, y: N)
    requires q == {(x, y)} && x != y
    ensures !Cyclic(q)
  {
    forall n: nat ensures !Path(q, x, x, {}, n) {
      var m := if n == 0 then 0 else n - 1;
      assert !Path(q, y, x, {}, m);
    }
  }
}
