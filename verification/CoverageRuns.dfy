/** The whole profiler: all threads, the methods collected so far, and the reports. */
module CoverageRuns {
  import opened CoverageProtocol

  /** Names as the runtime gives them, in UTF-16 code units with the terminating null. */
  datatype MethodInfo = MethodInfo(token: nat, assemblyName: seq<nat>, moduleName: seq<nat>)

  /** What is kept for the next report: a completed invocation, or a note that a mapped thread has none. */
  datatype Entry = Completed(finished: Finished) | Empty(threadId: int)

  datatype State = State(
    mapping: map<Thread, int>, balances: map<Thread, int>, unwinds: map<Thread, FunctionId>, filters: map<Thread, int>,
    coverage: map<Thread, seq<Record>>,
    methods: seq<MethodInfo>, visited: set<int>, entries: seq<Entry>, entryIds: seq<int>)

  /** The methods whose coverage is reported, with their numbers, and the entries. */
  datatype Report = Report(table: seq<(int, MethodInfo)>, entries: seq<Entry>)

  /** A callback on a thread, a method that is instrumented, or a request for the history.  A request finds the mapped
      threads in the order of the underlying map. */
  datatype Event = On(thread: Thread, callback: Callback) | Collects(info: MethodInfo) | Requests(mapped: seq<int>)

  function Get<T>(m: map<Thread, T>, t: Thread): Option<T> {
    if t in m then Some(m[t]) else None
  }

  function Put<T>(m: map<Thread, T>, t: Thread, o: Option<T>): map<Thread, T> {
    match o case Some(v) => m[t := v] case None => m - {t}
  }

  function LocalOf(s: State, t: Thread): Local {
    Local(Get(s.mapping, t), Get(s.balances, t), Get(s.unwinds, t), Get(s.filters, t), Get(s.coverage, t))
  }

  function WithLocal(s: State, t: Thread, l: Local): State {
    s.(mapping := Put(s.mapping, t, l.mapping), balances := Put(s.balances, t, l.balance), unwinds := Put(s.unwinds, t, l.unwind),
       filters := Put(s.filters, t, l.filter), coverage := Put(s.coverage, t, l.coverage))
  }

  function MethodsOf(rs: seq<Record>): set<int> {
    set r | r in rs :: r.methodId
  }

  /** A completed invocation is kept for the next report. */
  function Keep(s: State, f: Finished): State {
    s.(visited := s.visited + MethodsOf(f.records), entries := s.entries + [Completed(f)], entryIds := s.entryIds + [f.threadId])
  }

  function KeepAll(s: State, fs: seq<Finished>): State
    decreases |fs|
  {
    if fs == [] then s else KeepAll(Keep(s, fs[0]), fs[1..])
  }

  function Table(methods: seq<MethodInfo>, visited: set<int>, n: nat): seq<(int, MethodInfo)>
    requires n <= |methods|
  {
    if n == 0 then [] else Table(methods, visited, n - 1) + if n - 1 in visited then [(n - 1, methods[n - 1])] else []
  }

  /** Mapped threads that no report has mentioned get an empty entry. */
  function AddEmpty(s: State, mapped: seq<int>): State
    decreases |mapped|
  {
    if mapped == [] then s
    else if mapped[0] in s.entryIds then AddEmpty(s, mapped[1..])
    else AddEmpty(s.(entries := s.entries + [Empty(mapped[0])], entryIds := s.entryIds + [mapped[0]]), mapped[1..])
  }

  /** A request reports what has been kept and makes the trackers forget all threads. */
  function Forget(s: State): State {
    s.(mapping := map[], balances := map[], unwinds := map[], filters := map[], coverage := map[], entries := [])
  }

  datatype Outcome = Violated | Outcome(state: State, finished: seq<(Thread, Finished)>, reports: seq<Report>)

  function Step(cfg: Settings, s: State, e: Event): Outcome {
    match e
    case On(t, c) =>
      (match React(cfg, t, LocalOf(s, t), c)
       case Violation => Violated
       case Reaction(l, fs) => Outcome(KeepAll(WithLocal(s, t, l), fs), seq(|fs|, i requires 0 <= i < |fs| => (t, fs[i])), []))
    case Collects(info) => Outcome(s.(methods := s.methods + [info]), [], [])
    case Requests(mapped) =>
      var s' := AddEmpty(s, mapped);
      Outcome(Forget(s'), [], [Report(Table(s.methods, s.visited, |s.methods|), s'.entries)])
  }

  function Run(cfg: Settings, s: State, es: seq<Event>): Outcome
    decreases |es|
  {
    if es == [] then Outcome(s, [], [])
    else
      match Step(cfg, s, es[0])
      case Violated => Violated
      case Outcome(s', fs, rs) =>
        match Run(cfg, s', es[1..])
        case Violated => Violated
        case Outcome(s'', gs, qs) => Outcome(s'', fs + gs, rs + qs)
  }

  // Threads do not interfere

  lemma LocalOfWith(s: State, t: Thread, l: Local, u: Thread)
    ensures LocalOf(WithLocal(s, t, l), u) == if u == t then l else LocalOf(s, u)
  {
  }

  lemma {:induction false} KeepAllLocals(s: State, fs: seq<Finished>, u: Thread)
    ensures LocalOf(KeepAll(s, fs), u) == LocalOf(s, u) && KeepAll(s, fs).methods == s.methods
    decreases |fs|
  {
    if fs != [] { KeepAllLocals(Keep(s, fs[0]), fs[1..], u); }
  }

  lemma StepLocal(cfg: Settings, s: State, e: Event, u: Thread)
    requires !e.Requests? && Step(cfg, s, e).Outcome?
    ensures e.On? ==> React(cfg, e.thread, LocalOf(s, e.thread), e.callback).Reaction?
    ensures LocalOf(Step(cfg, s, e).state, u) ==
              if e.On? && e.thread == u then React(cfg, u, LocalOf(s, u), e.callback).local else LocalOf(s, u)
  {
    hide React, LocalOf, KeepAll, WithLocal;
    if e.On? {
      var l := React(cfg, e.thread, LocalOf(s, e.thread), e.callback);
      LocalOfWith(s, e.thread, l.local, u);
      KeepAllLocals(WithLocal(s, e.thread, l.local), l.finished, u);
    } else {
      SameLocals(s, Step(cfg, s, e).state, u);
    }
  }

  lemma SameLocals(s: State, s': State, u: Thread)
    requires s'.mapping == s.mapping && s'.balances == s.balances && s'.unwinds == s.unwinds && s'.filters == s.filters && s'.coverage == s.coverage
    ensures LocalOf(s', u) == LocalOf(s, u)
  {
  }

  /** The callbacks of one thread. */
  function Own(es: seq<Event>, t: Thread): seq<Callback> {
    if es == [] then [] else (if es[0].On? && es[0].thread == t then [es[0].callback] else []) + Own(es[1..], t)
  }

  /** The invocations completed by one thread. */
  function FinishedBy(fs: seq<(Thread, Finished)>, t: Thread): seq<Finished> {
    if fs == [] then [] else (if fs[0].0 == t then [fs[0].1] else []) + FinishedBy(fs[1..], t)
  }

  lemma Associative(a: seq<Finished>, b: seq<Finished>, c: seq<Finished>)
    ensures a + (b + c) == (a + b) + c
  {
  }

  lemma {:induction false} FinishedByConcat(fs: seq<(Thread, Finished)>, gs: seq<(Thread, Finished)>, t: Thread)
    ensures FinishedBy(fs + gs, t) == FinishedBy(fs, t) + FinishedBy(gs, t)
  {
    if fs == [] {
      assert fs + gs == gs;
    } else {
      assert (fs + gs)[1..] == fs[1..] + gs && (fs + gs)[0] == fs[0];
      FinishedByConcat(fs[1..], gs, t);
      Associative(if fs[0].0 == t then [fs[0].1] else [], FinishedBy(fs[1..], t), FinishedBy(gs, t));
    }
  }

  lemma {:induction false} FinishedByOne(fs: seq<Finished>, t: Thread, u: Thread)
    ensures var gs := seq(|fs|, i requires 0 <= i < |fs| => (t, fs[i])); FinishedBy(gs, u) == if u == t then fs else []
  {
    var gs := seq(|fs|, i requires 0 <= i < |fs| => (t, fs[i]));
    if fs != [] {
      FinishedByOne(fs[1..], t, u);
      assert gs[1..] == seq(|fs[1..]|, i requires 0 <= i < |fs[1..]| => (t, fs[1..][i]));
      assert fs == [fs[0]] + fs[1..];
    }
  }

  /** However the callbacks of different threads are interleaved, what one thread leaves behind depends on its own callbacks
      only. */
  lemma {:induction false} ThreadsApart(cfg: Settings, s: State, es: seq<Event>, t: Thread)
    requires Run(cfg, s, es).Outcome? && forall e :: e in es ==> !e.Requests?
    ensures var r := ReactAll(cfg, t, LocalOf(s, t), Own(es, t));
            r.Reaction? && LocalOf(Run(cfg, s, es).state, t) == r.local && FinishedBy(Run(cfg, s, es).finished, t) == r.finished
    decreases |es|
  {
    hide React, LocalOf, Step;
    if es != [] {
      var o := Step(cfg, s, es[0]);
      var rest := Run(cfg, o.state, es[1..]);
      ThreadsApart(cfg, o.state, es[1..], t);
      StepLocal(cfg, s, es[0], t);
      FinishedByConcat(o.finished, rest.finished, t);
      StepFinished(cfg, s, es[0], t);
      if es[0].On? && es[0].thread == t {
        assert Own(es, t)[1..] == Own(es[1..], t) && Own(es, t)[0] == es[0].callback;
      } else {
        assert Own(es, t) == Own(es[1..], t);
      }
    }
  }

  lemma StepFinished(cfg: Settings, s: State, e: Event, t: Thread)
    requires Step(cfg, s, e).Outcome?
    ensures FinishedBy(Step(cfg, s, e).finished, t) ==
              if e.On? && e.thread == t then React(cfg, t, LocalOf(s, t), e.callback).finished else []
  {
    hide React, LocalOf;
    if e.On? { FinishedByOne(React(cfg, e.thread, LocalOf(s, e.thread), e.callback).finished, e.thread, t); }
  }

  /** A well-nested invocation is completed exactly once, with its records in order, whatever other threads do meanwhile. */
  lemma InvocationAmongThreads(cfg: Settings, s: State, es: seq<Event>, t: Thread, i: Invocation)
    requires Run(cfg, s, es).Outcome? && forall e :: e in es ==> !e.Requests?
    requires Own(es, t) == CallbacksOf(cfg, i) && Entering(cfg, LocalOf(s, t)) && WellNested(cfg, i) && Closes(i.exit)
    ensures FinishedBy(Run(cfg, s, es).finished, t) == [Finished(MappedId(LocalOf(s, t)), RecordsOf(t, i))]
    ensures LocalOf(Run(cfg, s, es).state, t).balance.None?
  {
    ThreadsApart(cfg, s, es, t);
    InvocationFinishes(cfg, t, LocalOf(s, t), i);
  }

  // What holds in every run

  /** The trackers agree about every thread. */
  ghost predicate Agree(s: State) {
    forall t :: Consistent(t, LocalOf(s, t))
  }

  /** Exactly the tracked threads have a filter count and records. */
  lemma AgreeMeans(s: State)
    requires Agree(s)
    ensures s.balances.Keys == s.filters.Keys == s.coverage.Keys
    ensures forall t :: t in s.balances ==> s.balances[t] >= 0
  {
    forall t ensures t in s.balances <==> t in s.filters ensures t in s.balances <==> t in s.coverage
            ensures t in s.balances ==> s.balances[t] >= 0 {
      assert Consistent(t, LocalOf(s, t));
    }
  }

  lemma StepAgrees(cfg: Settings, s: State, e: Event)
    requires Agree(s) && Step(cfg, s, e).Outcome?
    ensures Agree(Step(cfg, s, e).state)
  {
    hide React;
    var s' := Step(cfg, s, e).state;
    forall t ensures Consistent(t, LocalOf(s', t)) {
      assert Consistent(t, LocalOf(s, t));
      if !e.Requests? {
        StepLocal(cfg, s, e, t);
        if e.On? && e.thread == t { ReactKeeps(cfg, t, LocalOf(s, t), e.callback); }
      }
    }
  }

  /** In every run the trackers agree. */
  lemma {:induction false} RunAgrees(cfg: Settings, s: State, es: seq<Event>)
    requires Agree(s) && Run(cfg, s, es).Outcome?
    ensures Agree(Run(cfg, s, es).state)
    decreases |es|
  {
    hide Step, Agree;
    if es != [] {
      StepAgrees(cfg, s, es[0]);
      RunAgrees(cfg, Step(cfg, s, es[0]).state, es[1..]);
    }
  }

  /** The callback is a tail call of the thread. */
  predicate IsTailCall(e: Event, t: Thread) {
    e.On? && e.thread == t && e.callback.TailCalls?
  }

  /** Without tail calls, a tracked thread is inside a main frame. */
  lemma {:induction false} InsideFrames(cfg: Settings, s: State, es: seq<Event>, t: Thread)
    requires Agree(s) && LocalOf(s, t).balance != Some(0) && Run(cfg, s, es).Outcome?
    requires forall e :: e in es ==> !IsTailCall(e, t)
    ensures LocalOf(Run(cfg, s, es).state, t).balance != Some(0)
    decreases |es|
  {
    hide React, Agree;
    if es != [] {
      var s' := Step(cfg, s, es[0]).state;
      StepAgrees(cfg, s, es[0]);
      AgreesAt(s, t);
      if !es[0].Requests? {
        StepLocal(cfg, s, es[0], t);
        if es[0].On? && es[0].thread == t {
          assert !IsTailCall(es[0], t);
          ReactKeeps(cfg, t, LocalOf(s, t), es[0].callback);
        }
      }
      InsideFrames(cfg, s', es[1..], t);
    }
  }

  /** Nothing is known when the profiler starts. */
  const START := State(map[], map[], map[], map[], map[], [], {}, [], [])

  /** From the start of the profiler on, exactly the tracked threads have a filter count and records, and each of them is
      inside a main frame unless it has made a tail call: in every run, with reports at any time. */
  lemma TrackersAgree(cfg: Settings, es: seq<Event>)
    requires Run(cfg, START, es).Outcome?
    ensures var s := Run(cfg, START, es).state;
            && s.balances.Keys == s.filters.Keys == s.coverage.Keys
            && forall t :: t in s.balances ==> s.balances[t] >= 0 && (s.balances[t] >= 1 || exists e :: e in es && IsTailCall(e, t))
  {
    hide Run;
    assert Agree(START);
    RunAgrees(cfg, START, es);
    var s := Run(cfg, START, es).state;
    AgreeMeans(s);
    forall t | t in s.balances && forall e :: e in es ==> !IsTailCall(e, t) ensures s.balances[t] >= 1 {
      InsideFrames(cfg, START, es, t);
    }
  }

  /** Every finished invocation has records, all of the thread that has finished it. */
  lemma {:induction false} FinishedHaveRecords(cfg: Settings, s: State, es: seq<Event>)
    requires Agree(s) && Run(cfg, s, es).Outcome?
    ensures forall f :: f in Run(cfg, s, es).finished ==> OwnRecords(f.0, f.1.records)
    decreases |es|
  {
    hide React, Agree, OwnRecords;
    if es != [] {
      StepAgrees(cfg, s, es[0]);
      if es[0].On? {
        var t := es[0].thread;
        assert Consistent(t, LocalOf(s, t)) by { AgreesAt(s, t); }
        ReactKeeps(cfg, t, LocalOf(s, t), es[0].callback);
      }
      FinishedHaveRecords(cfg, Step(cfg, s, es[0]).state, es[1..]);
    }
  }

  lemma AgreesAt(s: State, t: Thread)
    requires Agree(s)
    ensures Consistent(t, LocalOf(s, t))
  {
  }

  // Reports

  /** The completed invocations among the entries. */
  function CompletedIn(entries: seq<Entry>): seq<Finished> {
    if entries == [] then []
    else (match entries[0] case Completed(f) => [f] case Empty(_) => []) + CompletedIn(entries[1..])
  }

  function CompletedInAll(rs: seq<Report>): seq<Finished> {
    if rs == [] then [] else CompletedIn(rs[0].entries) + CompletedInAll(rs[1..])
  }

  function Values(fs: seq<(Thread, Finished)>): (vs: seq<Finished>)
    ensures |vs| == |fs|
  {
    seq(|fs|, i requires 0 <= i < |fs| => fs[i].1)
  }

  lemma {:induction false} CompletedConcat(a: seq<Entry>, b: seq<Entry>)
    ensures CompletedIn(a + b) == CompletedIn(a) + CompletedIn(b)
  {
    if a == [] {
      assert a + b == b;
    } else {
      assert (a + b)[1..] == a[1..] + b;
      CompletedConcat(a[1..], b);
    }
  }

  lemma {:induction false} KeepAllEntries(s: State, fs: seq<Finished>)
    ensures CompletedIn(KeepAll(s, fs).entries) == CompletedIn(s.entries) + fs
    decreases |fs|
  {
    if fs == [] {
      assert CompletedIn(s.entries) + [] == CompletedIn(s.entries);
    } else {
      KeepAllEntries(Keep(s, fs[0]), fs[1..]);
      CompletedConcat(s.entries, [Completed(fs[0])]);
      assert CompletedIn([Completed(fs[0])]) == [fs[0]] + CompletedIn([]);
      assert fs == [fs[0]] + fs[1..];
    }
  }

  lemma {:induction false} AddEmptyEntries(s: State, mapped: seq<int>)
    ensures CompletedIn(AddEmpty(s, mapped).entries) == CompletedIn(s.entries)
    ensures AddEmpty(s, mapped).visited == s.visited && AddEmpty(s, mapped).methods == s.methods
    decreases |mapped|
  {
    if mapped != [] {
      if mapped[0] in s.entryIds {
        AddEmptyEntries(s, mapped[1..]);
      } else {
        AddEmptyEntries(s.(entries := s.entries + [Empty(mapped[0])], entryIds := s.entryIds + [mapped[0]]), mapped[1..]);
        CompletedConcat(s.entries, [Empty(mapped[0])]);
        assert CompletedIn([Empty(mapped[0])]) == [] + CompletedIn([]);
      }
    }
  }

  /** One step moves completed invocations between the kept entries and the report, and loses none. */
  lemma StepConserves(cfg: Settings, s: State, e: Event)
    requires Step(cfg, s, e).Outcome?
    ensures var o := Step(cfg, s, e);
            CompletedInAll(o.reports) + CompletedIn(o.state.entries) == CompletedIn(s.entries) + Values(o.finished)
  {
    hide React, LocalOf;
    var o := Step(cfg, s, e);
    match e
    case On(t, c) =>
      var r := React(cfg, t, LocalOf(s, t), c);
      KeepAllEntries(WithLocal(s, t, r.local), r.finished);
      assert Values(o.finished) == r.finished;
      assert CompletedInAll([]) == [];
    case Collects(_) =>
    case Requests(mapped) =>
      AddEmptyEntries(s, mapped);
      assert o.reports[1..] == [] && CompletedInAll(o.reports) == CompletedIn(o.reports[0].entries) + [];
  }

  lemma {:induction false} ReportsConcat(rs: seq<Report>, qs: seq<Report>)
    ensures CompletedInAll(rs + qs) == CompletedInAll(rs) + CompletedInAll(qs)
  {
    if rs == [] {
      assert rs + qs == qs;
    } else {
      assert (rs + qs)[1..] == rs[1..] + qs;
      ReportsConcat(rs[1..], qs);
    }
  }

  /** Over a whole run every completed invocation is in exactly one report, or still kept, in the order of completion. */
  lemma {:induction false} EveryInvocationReportedOnce(cfg: Settings, s: State, es: seq<Event>)
    requires Run(cfg, s, es).Outcome?
    ensures var o := Run(cfg, s, es);
            CompletedInAll(o.reports) + CompletedIn(o.state.entries) == CompletedIn(s.entries) + Values(o.finished)
    decreases |es|
  {
    hide Step, CompletedIn;
    if es == [] {
      assert CompletedIn(s.entries) + [] == CompletedIn(s.entries);
    } else {
      var o := Step(cfg, s, es[0]);
      var rest := Run(cfg, o.state, es[1..]);
      StepConserves(cfg, s, es[0]);
      EveryInvocationReportedOnce(cfg, o.state, es[1..]);
      ReportsConcat(o.reports, rest.reports);
      assert Values(o.finished + rest.finished) == Values(o.finished) + Values(rest.finished);
      Regroup(CompletedInAll(o.reports), CompletedInAll(rest.reports), CompletedIn(rest.state.entries),
              CompletedIn(o.state.entries), Values(rest.finished), CompletedIn(s.entries), Values(o.finished));
    }
  }

  lemma Regroup<T>(a: seq<T>, b: seq<T>, c: seq<T>, d: seq<T>, e: seq<T>, f: seq<T>, g: seq<T>)
    requires b + c == d + e && a + d == f + g
    ensures (a + b) + c == f + (g + e)
  {
    assert (a + b) + c == a + (b + c) == a + (d + e) == (a + d) + e == (f + g) + e == f + (g + e);
  }

  // Reports are self-contained

  /** Method numbers come from the collection of methods. */
  predicate Issued(s: State, e: Event) {
    match e
    case On(_, EntersMain(_, id)) => 0 <= id < |s.methods|
    case On(_, LeavesMain(_, id)) => 0 <= id < |s.methods|
    case On(_, TailCalls(_, id)) => 0 <= id < |s.methods|
    case On(_, Hits(_, _, id)) => 0 <= id < |s.methods|
    case _ => true
  }

  predicate IssuedAll(cfg: Settings, s: State, es: seq<Event>)
    decreases |es|
  {
    es == [] || (Issued(s, es[0]) && (Step(cfg, s, es[0]).Outcome? ==> IssuedAll(cfg, Step(cfg, s, es[0]).state, es[1..])))
  }

  predicate KnownRecords(n: nat, rs: seq<Record>) {
    forall r :: r in rs ==> 0 <= r.methodId < n
  }

  /** Every recorded method has been collected, and the methods of all kept entries are marked as visited. */
  predicate Recorded(s: State) {
    && (forall t :: t in s.coverage ==> KnownRecords(|s.methods|, s.coverage[t]))
    && (forall e :: e in s.entries && e.Completed? ==> KnownRecords(|s.methods|, e.finished.records) && MethodsOf(e.finished.records) <= s.visited)
  }

  /** Every method that a record of the report mentions is in its table. */
  predicate SelfContained(r: Report) {
    forall e :: e in r.entries && e.Completed? ==> forall id :: id in MethodsOf(e.finished.records) ==> InTable(r.table, id)
  }

  predicate DistinctKeys(table: seq<(int, MethodInfo)>) {
    forall i, j :: 0 <= i < j < |table| ==> table[i].0 != table[j].0
  }

  lemma {:induction false} TableKeys(methods: seq<MethodInfo>, visited: set<int>, n: nat)
    requires n <= |methods|
    ensures DistinctKeys(Table(methods, visited, n)) && forall p :: p in Table(methods, visited, n) ==> p.0 < n
  {
    if n > 0 {
      TableKeys(methods, visited, n - 1);
      var t := Table(methods, visited, n - 1);
      assert forall i :: 0 <= i < |t| ==> t[i] in t;
    }
  }

  predicate InTable(table: seq<(int, MethodInfo)>, id: int) {
    exists p :: p in table && p.0 == id
  }

  lemma {:induction false} TableHas(methods: seq<MethodInfo>, visited: set<int>, n: nat, id: int)
    requires n <= |methods| && 0 <= id < n && id in visited
    ensures InTable(Table(methods, visited, n), id)
  {
    var table := Table(methods, visited, n);
    if id == n - 1 {
      assert (id, methods[id]) in table;
    } else {
      TableHas(methods, visited, n - 1, id);
      var p :| p in Table(methods, visited, n - 1) && p.0 == id;
      assert p in table;
    }
  }

  lemma ReactRecords(cfg: Settings, t: Thread, l: Local, c: Callback, n: nat)
    requires React(cfg, t, l, c).Reaction? && (l.coverage.Some? ==> KnownRecords(n, l.coverage.value))
    requires c.EntersMain? || c.LeavesMain? || c.TailCalls? || c.Hits? ==> 0 <= c.methodId < n
    ensures var r := React(cfg, t, l, c);
            && (r.local.coverage.Some? ==> KnownRecords(n, r.local.coverage.value))
            && |r.finished| <= 1 && forall f :: f in r.finished ==> KnownRecords(n, f.records)
  {
  }

  lemma KeepRecorded(s: State, fs: seq<Finished>)
    requires Recorded(s) && |fs| <= 1 && forall f :: f in fs ==> KnownRecords(|s.methods|, f.records)
    ensures Recorded(KeepAll(s, fs))
  {
    if fs != [] {
      var s' := Keep(s, fs[0]);
      assert fs[1..] == [] && KeepAll(s, fs) == KeepAll(s', []) == s';
      assert fs[0] in fs;
    }
  }

  lemma {:induction false} EmptyRecorded(s: State, mapped: seq<int>)
    requires Recorded(s)
    ensures Recorded(AddEmpty(s, mapped)) && AddEmpty(s, mapped).visited == s.visited && AddEmpty(s, mapped).methods == s.methods
    decreases |mapped|
  {
    if mapped != [] {
      if mapped[0] in s.entryIds {
        EmptyRecorded(s, mapped[1..]);
      } else {
        EmptyRecorded(s.(entries := s.entries + [Empty(mapped[0])], entryIds := s.entryIds + [mapped[0]]), mapped[1..]);
      }
    }
  }

  lemma StepRecorded(cfg: Settings, s: State, e: Event)
    requires Recorded(s) && Issued(s, e) && Step(cfg, s, e).Outcome?
    ensures Recorded(Step(cfg, s, e).state)
    ensures forall r :: r in Step(cfg, s, e).reports ==> SelfContained(r) && DistinctKeys(r.table)
  {
    hide React;
    match e
    case On(t, c) =>
      var r := React(cfg, t, LocalOf(s, t), c);
      ReactRecords(cfg, t, LocalOf(s, t), c, |s.methods|);
      KeepRecorded(WithLocal(s, t, r.local), r.finished);
    case Collects(_) =>
    case Requests(mapped) =>
      EmptyRecorded(s, mapped);
      TableKeys(s.methods, s.visited, |s.methods|);
      var r := Step(cfg, s, e).reports[0];
      forall x, id | x in r.entries && x.Completed? && id in MethodsOf(x.finished.records) ensures InTable(r.table, id) {
        TableHas(s.methods, s.visited, |s.methods|, id);
      }
  }

  /** In every run, a report names all the methods that its records mention. */
  lemma {:induction false} ReportsSelfContained(cfg: Settings, s: State, es: seq<Event>)
    requires Recorded(s) && IssuedAll(cfg, s, es) && Run(cfg, s, es).Outcome?
    ensures forall r :: r in Run(cfg, s, es).reports ==> SelfContained(r) && DistinctKeys(r.table)
    decreases |es|
  {
    hide Step, Recorded, SelfContained, DistinctKeys, Issued;
    if es != [] {
      StepRecorded(cfg, s, es[0]);
      ReportsSelfContained(cfg, Step(cfg, s, es[0]).state, es[1..]);
    }
  }

  /** From the start of the profiler on, every report is self-contained. */
  lemma AllReportsSelfContained(cfg: Settings, es: seq<Event>)
    requires IssuedAll(cfg, START, es) && Run(cfg, START, es).Outcome?
    ensures forall r :: r in Run(cfg, START, es).reports ==> SelfContained(r) && DistinctKeys(r.table)
  {
    hide Run, IssuedAll, SelfContained, DistinctKeys;
    assert Recorded(START);
    ReportsSelfContained(cfg, START, es);
  }

  // What the method table says

  /** The methods that the events have announced, in order. */
  function Collected(es: seq<Event>): seq<MethodInfo> {
    if es == [] then [] else (match es[0] case Collects(info) => [info] case _ => []) + Collected(es[1..])
  }

  /** Every number in the table stands for the method that was announced under it. */
  predicate Faithful(table: seq<(int, MethodInfo)>, methods: seq<MethodInfo>) {
    forall p :: p in table ==> 0 <= p.0 < |methods| && p.1 == methods[p.0]
  }

  lemma {:induction false} TableFaithful(methods: seq<MethodInfo>, visited: set<int>, n: nat, more: seq<MethodInfo>)
    requires n <= |methods|
    ensures Faithful(Table(methods, visited, n), methods + more) && forall p :: p in Table(methods, visited, n) ==> p.0 in visited
  {
    if n > 0 { TableFaithful(methods, visited, n - 1, more); }
  }

  lemma StepMethods(cfg: Settings, s: State, e: Event, more: seq<MethodInfo>)
    requires Step(cfg, s, e).Outcome?
    ensures Step(cfg, s, e).state.methods == s.methods + (match e case Collects(info) => [info] case _ => [])
    ensures forall r :: r in Step(cfg, s, e).reports ==> Faithful(r.table, s.methods + more) && DistinctKeys(r.table)
  {
    hide React, LocalOf;
    match e
    case On(t, c) =>
      var r := React(cfg, t, LocalOf(s, t), c);
      KeepAllLocals(WithLocal(s, t, r.local), r.finished, t);
    case Collects(_) =>
    case Requests(mapped) =>
      AddEmptyEntries(s, mapped);
      TableFaithful(s.methods, s.visited, |s.methods|, more);
      TableKeys(s.methods, s.visited, |s.methods|);
  }

  lemma {:induction false} RunMethods(cfg: Settings, s: State, es: seq<Event>)
    requires Run(cfg, s, es).Outcome?
    ensures Run(cfg, s, es).state.methods == s.methods + Collected(es)
    ensures forall r :: r in Run(cfg, s, es).reports ==> Faithful(r.table, s.methods + Collected(es)) && DistinctKeys(r.table)
    decreases |es|
  {
    hide Step, Faithful, DistinctKeys;
    if es != [] {
      var o := Step(cfg, s, es[0]);
      StepMethods(cfg, s, es[0], Collected(es));
      RunMethods(cfg, o.state, es[1..]);
      assert o.state.methods + Collected(es[1..]) == s.methods + Collected(es);
    }
  }

  /** From the start of the profiler on, the entry of a method in any report is what was announced under its number. */
  lemma TablesFaithful(cfg: Settings, es: seq<Event>)
    requires Run(cfg, START, es).Outcome?
    ensures Run(cfg, START, es).state.methods == Collected(es)
    ensures forall r, p :: r in Run(cfg, START, es).reports && p in r.table ==> 0 <= p.0 < |Collected(es)| && p.1 == Collected(es)[p.0]
  {
    hide Run, Faithful;
    RunMethods(cfg, START, es);
    assert [] + Collected(es) == Collected(es);
    forall r, p | r in Run(cfg, START, es).reports && p in r.table ensures 0 <= p.0 < |Collected(es)| && p.1 == Collected(es)[p.0] {
      FaithfulAt(r.table, Collected(es), p);
    }
  }

  lemma FaithfulAt(table: seq<(int, MethodInfo)>, methods: seq<MethodInfo>, p: (int, MethodInfo))
    requires Faithful(table, methods) && p in table
    ensures 0 <= p.0 < |methods| && p.1 == methods[p.0]
  {
  }

  // Which methods are visited

  /** The methods that the invocations mention. */
  function Mentioned(fs: seq<Finished>): set<int> {
    set f, r | f in fs && r in f.records :: r.methodId
  }

  lemma {:induction false} KeepAllVisited(s: State, fs: seq<Finished>)
    ensures KeepAll(s, fs).visited == s.visited + Mentioned(fs)
    decreases |fs|
  {
    if fs != [] {
      KeepAllVisited(Keep(s, fs[0]), fs[1..]);
      assert fs == [fs[0]] + fs[1..];
      assert Mentioned(fs) == MethodsOf(fs[0].records) + Mentioned(fs[1..]);
    }
  }

  lemma StepVisited(cfg: Settings, s: State, e: Event)
    requires Step(cfg, s, e).Outcome?
    ensures Step(cfg, s, e).state.visited == s.visited + Mentioned(Values(Step(cfg, s, e).finished))
    ensures forall r, p :: r in Step(cfg, s, e).reports && p in r.table ==> p.0 in s.visited
  {
    hide React, LocalOf;
    match e
    case On(t, c) =>
      var r := React(cfg, t, LocalOf(s, t), c);
      KeepAllVisited(WithLocal(s, t, r.local), r.finished);
      assert Values(Step(cfg, s, e).finished) == r.finished;
    case Collects(_) =>
    case Requests(mapped) =>
      AddEmptyEntries(s, mapped);
      TableFaithful(s.methods, s.visited, |s.methods|, []);
  }

  /** The table of a report lists no method but those of invocations completed so far. */
  lemma {:induction false} TablesVisited(cfg: Settings, s: State, es: seq<Event>)
    requires Run(cfg, s, es).Outcome?
    ensures var o := Run(cfg, s, es);
            && o.state.visited == s.visited + Mentioned(Values(o.finished))
            && forall r, p :: r in o.reports && p in r.table ==> p.0 in o.state.visited
    decreases |es|
  {
    hide Step, Mentioned;
    if es == [] {
      assert Mentioned([]) == {} by { NothingMentioned(); }
    } else {
      var o := Step(cfg, s, es[0]);
      var rest := Run(cfg, o.state, es[1..]);
      StepVisited(cfg, s, es[0]);
      TablesVisited(cfg, o.state, es[1..]);
      assert Values(o.finished + rest.finished) == Values(o.finished) + Values(rest.finished);
      MentionedConcat(Values(o.finished), Values(rest.finished));
    }
  }

  lemma NothingMentioned()
    ensures Mentioned([]) == {}
  {
  }

  lemma MentionedConcat(fs: seq<Finished>, gs: seq<Finished>)
    ensures Mentioned(fs + gs) == Mentioned(fs) + Mentioned(gs)
  {
  }

  // Empty entries

  function IdOf(e: Entry): int {
    match e case Completed(f) => f.threadId case Empty(id) => id
  }

  /** The thread numbers of the entries. */
  function IdsOf(entries: seq<Entry>): (ids: seq<int>)
    ensures |ids| == |entries|
  {
    seq(|entries|, i requires 0 <= i < |entries| => IdOf(entries[i]))
  }

  function IdsOfAll(rs: seq<Report>): seq<int> {
    if rs == [] then [] else IdsOf(rs[0].entries) + IdsOfAll(rs[1..])
  }

  function Empties(ids: seq<int>): seq<Entry> {
    seq(|ids|, i requires 0 <= i < |ids| => Empty(ids[i]))
  }

  predicate Different(ids: seq<int>) {
    forall i, j :: 0 <= i < j < |ids| ==> ids[i] != ids[j]
  }

  lemma {:induction false} AddEmptyAdds(s: State, mapped: seq<int>) returns (ids: seq<int>)
    ensures AddEmpty(s, mapped) == s.(entries := s.entries + Empties(ids), entryIds := s.entryIds + ids)
    ensures Different(ids) && forall id :: id in ids <==> id in mapped && id !in s.entryIds
    decreases |mapped|
  {
    ids := [];
    if mapped == [] {
      assert s.entries + Empties(ids) == s.entries && s.entryIds + ids == s.entryIds;
    } else if mapped[0] in s.entryIds {
      ids := AddEmptyAdds(s, mapped[1..]);
      assert mapped == [mapped[0]] + mapped[1..];
    } else {
      var s' := s.(entries := s.entries + [Empty(mapped[0])], entryIds := s.entryIds + [mapped[0]]);
      var more := AddEmptyAdds(s', mapped[1..]);
      ids := [mapped[0]] + more;
      assert mapped[0] in s'.entryIds && forall j :: 0 <= j < |more| ==> more[j] in more;
      assert Empties(ids) == [Empty(mapped[0])] + Empties(more);
      assert s'.entries + Empties(more) == s.entries + Empties(ids) && s'.entryIds + more == s.entryIds + ids;
      assert mapped == [mapped[0]] + mapped[1..];
    }
  }

  /** The numbers remembered are those of reported entries, and then those of the entries still kept. */
  predicate Remembered(s: State, reported: seq<int>) {
    s.entryIds == reported + IdsOf(s.entries)
  }

  lemma {:induction false} KeepAllRemembers(s: State, fs: seq<Finished>, reported: seq<int>)
    requires Remembered(s, reported)
    ensures Remembered(KeepAll(s, fs), reported)
    decreases |fs|
  {
    if fs != [] {
      assert IdsOf(s.entries + [Completed(fs[0])]) == IdsOf(s.entries) + [fs[0].threadId];
      KeepAllRemembers(Keep(s, fs[0]), fs[1..], reported);
    }
  }

  lemma {:induction false} IdsConcat(rs: seq<Report>, qs: seq<Report>)
    ensures IdsOfAll(rs + qs) == IdsOfAll(rs) + IdsOfAll(qs)
  {
    if rs == [] {
      assert rs + qs == qs;
    } else {
      assert (rs + qs)[1..] == rs[1..] + qs;
      IdsConcat(rs[1..], qs);
    }
  }

  lemma StepRemembers(cfg: Settings, s: State, e: Event, reported: seq<int>)
    requires Remembered(s, reported) && Step(cfg, s, e).Outcome?
    ensures Remembered(Step(cfg, s, e).state, reported + IdsOfAll(Step(cfg, s, e).reports))
  {
    hide React, LocalOf;
    var o := Step(cfg, s, e);
    match e
    case On(t, c) =>
      var r := React(cfg, t, LocalOf(s, t), c);
      KeepAllRemembers(WithLocal(s, t, r.local), r.finished, reported);
      assert reported + [] == reported;
    case Collects(_) => assert reported + [] == reported;
    case Requests(mapped) =>
      var ids := AddEmptyAdds(s, mapped);
      assert IdsOf(s.entries + Empties(ids)) == IdsOf(s.entries) + ids;
      assert o.reports[1..] == [] && IdsOfAll(o.reports) == IdsOf(o.reports[0].entries) + [];
  }

  lemma {:induction false} RunRemembers(cfg: Settings, s: State, es: seq<Event>, reported: seq<int>)
    requires Remembered(s, reported) && Run(cfg, s, es).Outcome?
    ensures Remembered(Run(cfg, s, es).state, reported + IdsOfAll(Run(cfg, s, es).reports))
    decreases |es|
  {
    hide Step, Remembered;
    if es == [] {
      assert reported + [] == reported;
    } else {
      var o := Step(cfg, s, es[0]);
      var rest := Run(cfg, o.state, es[1..]);
      StepRemembers(cfg, s, es[0], reported);
      RunRemembers(cfg, o.state, es[1..], reported + IdsOfAll(o.reports));
      IdsConcat(o.reports, rest.reports);
      assert reported + IdsOfAll(o.reports) + IdsOfAll(rest.reports) == reported + (IdsOfAll(o.reports) + IdsOfAll(rest.reports));
    }
  }

  /** Whatever has happened before, a request reports all kept entries and then one empty entry for each numbered thread that
      no entry has mentioned, in this report or an earlier one.  Afterwards nothing is known of any thread, and no entry is
      kept; the methods and the numbers mentioned are not forgotten. */
  lemma RequestReports(cfg: Settings, es: seq<Event>, mapped: seq<int>) returns (ids: seq<int>)
    requires Run(cfg, START, es).Outcome?
    ensures var o := Run(cfg, START, es); var s := o.state; var q := Step(cfg, s, Requests(mapped));
            && q.Outcome? && |q.reports| == 1 && q.reports[0].entries == s.entries + Empties(ids) && Different(ids)
            && (forall id :: id in ids <==> id in mapped && id !in IdsOfAll(o.reports) && id !in IdsOf(s.entries))
            && (forall t :: LocalOf(q.state, t) == UNKNOWN) && q.state.entries == []
            && q.state.methods == s.methods && q.state.visited == s.visited && q.state.entryIds == s.entryIds + ids
  {
    hide Run, IdsOf, IdsOfAll, Table;
    var o := Run(cfg, START, es);
    assert Remembered(START, []) by { assert IdsOf([]) == []; }
    RunRemembers(cfg, START, es, []);
    assert [] + IdsOfAll(o.reports) == IdsOfAll(o.reports);
    ids := AddEmptyAdds(o.state, mapped);
  }
}
