/** The trackers of the profiler: maps from threads to what is known of them, updated by the probes.  The assertions of
    the trackers are preconditions here; which callbacks meet them is part of the coverage protocol. */
module Trackers {
  import opened Bytes
  import opened CoverageProtocol
  import opened CoverageRuns
  import opened CoverageReports

  /** A value for each thread.  Every operation runs under a lock. */
  class ThreadStorage<T> {
    var inner: map<Thread, T>

    constructor ()
      ensures inner == map[]
    {
      inner := map[];
    }

    method Store(thread: Thread, data: T)
      requires thread !in inner
      modifies this
      ensures inner == old(inner)[thread := data]
    {
      inner := inner[thread := data];
    }

    method StoreOrUpdate(thread: Thread, data: T)
      modifies this
      ensures inner == old(inner)[thread := data]
    {
      inner := inner[thread := data];
    }

    method Load(thread: Thread) returns (data: T)
      requires thread in inner
      ensures data == inner[thread]
    {
      data := inner[thread];
    }

    method Update(thread: Thread, f: T -> T) returns (result: T)
      requires thread in inner
      modifies this
      ensures inner == old(inner)[thread := f(old(inner[thread]))] && result == inner[thread]
    {
      result := f(inner[thread]);
      inner := inner[thread := result];
    }

    method Remove(thread: Thread)
      requires thread in inner
      modifies this
      ensures inner == old(inner) - {thread}
    {
      inner := inner - {thread};
    }

    method Clear()
      modifies this
      ensures inner == map[]
    {
      inner := map[];
    }

    /** All values, in the order of the threads. */
    method Items() returns (items: seq<(Thread, T)>)
      ensures IsListing(inner, items)
    {
      items := [];
      var rest := inner.Keys;
      while rest != {}
        invariant rest <= inner.Keys && Listed(inner, items, rest)
        decreases |rest|
      {
        ghost var first := Least(rest);
        var t :| t in rest && forall u :: u in rest ==> t <= u;
        items := items + [(t, inner[t])];
        rest := rest - {t};
      }
    }
  }

  /** `items` holds the entries of the map but those in `rest`, in ascending order and before all of `rest`. */
  ghost predicate Listed<T>(m: map<Thread, T>, items: seq<(Thread, T)>, rest: set<Thread>) {
    && (forall i, j :: 0 <= i < j < |items| ==> items[i].0 < items[j].0)
    && (forall p :: p in items ==> p.0 in m && p.0 !in rest && p.1 == m[p.0] && forall u :: u in rest ==> p.0 < u)
    && (forall t :: t in m && t !in rest ==> (t, m[t]) in items)
  }

  ghost predicate IsListing<T>(m: map<Thread, T>, items: seq<(Thread, T)>) {
    Listed(m, items, {})
  }

  lemma {:induction false} Least(s: set<Thread>) returns (t: Thread)
    requires s != {}
    ensures t in s && forall u :: u in s ==> t <= u
    decreases |s|
  {
    t :| t in s;
    if s - {t} != {} {
      var x := t;
      var y := Least(s - {x});
      t := if x <= y then x else y;
      forall u | u in s ensures t <= u {
        if u != x { assert u in s - {x}; }
      }
    } else {
      forall u | u in s ensures u == t { assert u !in s - {t}; }
    }
  }

  class CoverageHistory {
    var records: seq<Record>
    var visitedMethods: set<int>

    ghost predicate Valid()
      reads this
    {
      visitedMethods == MethodsOf(records)
    }

    constructor (thread: Thread, offset: int, methodId: int)
      ensures Valid() && records == [Record(offset, EnterMain, thread, methodId)]
    {
      visitedMethods, records := {methodId}, [Record(offset, EnterMain, thread, methodId)];
    }

    method AddCoverage(thread: Thread, offset: int, event: CoverageEvent, methodId: int)
      requires Valid()
      modifies this
      ensures Valid() && records == old(records) + [Record(offset, event, thread, methodId)]
    {
      visitedMethods := visitedMethods + {methodId};
      records := records + [Record(offset, event, thread, methodId)];
    }
  }

  ghost predicate AreBytes(bytes: seq<seq<byte>>, entries: seq<Entry>) {
    |bytes| == |entries| && forall i :: 0 <= i < |entries| ==> bytes[i] == EntryBytes(entries[i])
  }

  lemma MoreBytes(bytes: seq<seq<byte>>, entries: seq<Entry>, e: Entry)
    requires AreBytes(bytes, entries)
    ensures AreBytes(bytes + [EntryBytes(e)], entries + [e])
  {
    hide EntryBytes;
  }

  class Profiler {
    const cfg: Settings
    const threadIdMapping: ThreadStorage<int>
    const stackBalances: ThreadStorage<int>
    const unwindFunctionIds: ThreadStorage<FunctionId>
    const inFilterMapping: ThreadStorage<int>
    const trackedCoverage: ThreadStorage<CoverageHistory>
    var collectedMethods: seq<MethodInfo>
    var visitedMethods: set<int>
    /** The bytes of every entry of the next report. */
    var serializedCoverage: seq<seq<byte>>
    var serializedCoverageThreadIds: seq<int>
    ghost var entries: seq<Entry>

    ghost predicate Storages()
      reads this
    {
      && threadIdMapping != stackBalances && threadIdMapping != unwindFunctionIds && threadIdMapping != inFilterMapping
      && stackBalances != unwindFunctionIds && stackBalances != inFilterMapping && unwindFunctionIds != inFilterMapping
    }

    /** Every tracked thread has a history of its own. */
    ghost predicate Histories()
      reads trackedCoverage, set t | t in trackedCoverage.inner :: trackedCoverage.inner[t]
    {
      && (forall t :: t in trackedCoverage.inner ==> trackedCoverage.inner[t].Valid())
      && (forall t, u :: t in trackedCoverage.inner && u in trackedCoverage.inner && t != u ==> trackedCoverage.inner[t] != trackedCoverage.inner[u])
    }

    ghost predicate Serialized()
      reads this
    {
      AreBytes(serializedCoverage, entries)
    }

    ghost predicate Valid()
      reads this, trackedCoverage, set t | t in trackedCoverage.inner :: trackedCoverage.inner[t]
    {
      Storages() && Histories() && Serialized()
    }

    /** The records of every tracked thread. */
    ghost function Coverage(): map<Thread, seq<Record>>
      reads trackedCoverage, set t | t in trackedCoverage.inner :: trackedCoverage.inner[t]
    {
      map t | t in trackedCoverage.inner :: trackedCoverage.inner[t].records
    }

    /** What the trackers know. */
    ghost function Known(): State
      reads this, threadIdMapping, stackBalances, unwindFunctionIds, inFilterMapping, trackedCoverage
      reads set t | t in trackedCoverage.inner :: trackedCoverage.inner[t]
    {
      State(threadIdMapping.inner, stackBalances.inner, unwindFunctionIds.inner, inFilterMapping.inner,
            Coverage(), collectedMethods, visitedMethods, entries, serializedCoverageThreadIds)
    }

    constructor (cfg: Settings)
      ensures Valid() && this.cfg == cfg && Known() == State(map[], map[], map[], map[], map[], [], {}, [], [])
    {
      this.cfg := cfg;
      threadIdMapping := new ThreadStorage<int>();
      stackBalances := new ThreadStorage<int>();
      unwindFunctionIds := new ThreadStorage<FunctionId>();
      inFilterMapping := new ThreadStorage<int>();
      trackedCoverage := new ThreadStorage<CoverageHistory>();
      collectedMethods, visitedMethods, serializedCoverage, serializedCoverageThreadIds, entries := [], {}, [], [], [];
    }

    // Coverage tracker

    /** The first record of a thread opens its history. */
    method AddCoverage(thread: Thread, offset: int, event: CoverageEvent, methodId: int)
      requires Valid() && (event == EnterMain || thread in trackedCoverage.inner)
      modifies trackedCoverage, set t | t in trackedCoverage.inner :: trackedCoverage.inner[t]
      ensures Valid()
      ensures var before := if thread in old(Coverage()) then old(Coverage())[thread] else [];
              Coverage() == old(Coverage())[thread := before + [Record(offset, event, thread, methodId)]]
    {
      hide EntryBytes, MethodsOf;
      ghost var was := Coverage();
      ghost var r := Record(offset, event, thread, methodId);
      if event == EnterMain && thread !in trackedCoverage.inner {
        var history := new CoverageHistory(thread, offset, methodId);
        trackedCoverage.Store(thread, history);
        assert [] + [r] == [r];
        assert Coverage() == was[thread := [r]];
      } else {
        var history := trackedCoverage.Load(thread);
        history.AddCoverage(thread, offset, event, methodId);
        assert Coverage() == was[thread := was[thread] + [r]];
      }
    }

    /** The thread's number for the report. */
    method MappedThreadId(thread: Thread) returns (threadId: int)
      ensures threadId == if thread in threadIdMapping.inner then threadIdMapping.inner[thread] else 0
    {
      threadId := 0;
      if thread in threadIdMapping.inner {
        threadId := threadIdMapping.Load(thread);
      }
    }

    /** The history of the thread becomes an entry of the next report. */
    method InvocationFinished(thread: Thread)
      requires Valid() && thread in trackedCoverage.inner
      modifies this, trackedCoverage
      ensures Valid() && Coverage() == old(Coverage()) - {thread}
      ensures collectedMethods == old(collectedMethods)
      ensures var f := Finished(if thread in threadIdMapping.inner then threadIdMapping.inner[thread] else 0, old(Coverage())[thread]);
              && visitedMethods == old(visitedMethods) + MethodsOf(f.records)
              && entries == old(entries) + [Completed(f)]
              && serializedCoverageThreadIds == old(serializedCoverageThreadIds) + [f.threadId]
    {
      hide EntryBytes, HistoryBytes, LE, MethodsOf, Histories, AreBytes, Coverage;
      HistoryOf(thread);
      var coverage := trackedCoverage.Load(thread);
      var threadId := MappedThreadId(thread);
      visitedMethods := visitedMethods + coverage.visitedMethods;
      var buffer := LE(threadId, 4) + LE(0, 4) + HistoryBytes(coverage.records);
      ghost var entry := Completed(Finished(threadId, coverage.records));
      CompletedBytes(threadId, coverage.records);
      MoreBytes(serializedCoverage, entries, entry);
      ForgetHistory(thread);
      serializedCoverageThreadIds := serializedCoverageThreadIds + [threadId];
      serializedCoverage := serializedCoverage + [buffer];
      entries := entries + [entry];
    }

    lemma HistoryOf(thread: Thread)
      requires Histories() && thread in trackedCoverage.inner
      ensures var h := trackedCoverage.inner[thread]; h.Valid() && thread in Coverage() && Coverage()[thread] == h.records
    {
      hide MethodsOf;
    }

    method ForgetHistory(thread: Thread)
      requires Histories() && thread in trackedCoverage.inner
      modifies trackedCoverage
      ensures Histories() && Coverage() == old(Coverage()) - {thread}
    {
      hide MethodsOf;
      ghost var was := Coverage();
      trackedCoverage.Remove(thread);
      assert Coverage() == was - {thread};
    }

    lemma CompletedBytes(threadId: int, records: seq<Record>)
      ensures EntryBytes(Completed(Finished(threadId, records))) == LE(threadId, 4) + LE(0, 4) + HistoryBytes(records)
    {
    }

    // Thread tracker

    predicate IsTracked(thread: Thread)
      reads stackBalances
    {
      thread in stackBalances.inner
    }

    method TrackCurrentThread(thread: Thread)
      requires Storages() && !IsTracked(thread) && thread !in inFilterMapping.inner
      modifies stackBalances, inFilterMapping
      ensures stackBalances.inner == old(stackBalances.inner)[thread := 0]
      ensures inFilterMapping.inner == old(inFilterMapping.inner)[thread := 0]
    {
      stackBalances.Store(thread, 0);
      inFilterMapping.Store(thread, 0);
    }

    method StackBalanceUp(thread: Thread)
      requires IsTracked(thread)
      modifies stackBalances
      ensures stackBalances.inner == old(stackBalances.inner)[thread := old(stackBalances.inner[thread]) + 1]
    {
      var balance := stackBalances.Update(thread, value => value + 1);
    }

    /** Whether frames are left. */
    method StackBalanceDown(thread: Thread) returns (left: bool)
      requires IsTracked(thread) && stackBalances.inner[thread] >= 1
      modifies stackBalances
      ensures stackBalances.inner == old(stackBalances.inner)[thread := old(stackBalances.inner[thread]) - 1]
      ensures left <==> stackBalances.inner[thread] != 0
    {
      var newBalance := stackBalances.Update(thread, value => value - 1);
      left := newBalance != 0;
    }

    /** The state after the last main frame of the thread is gone. */
    ghost predicate HasFinished(thread: Thread, s: State)
      reads this, threadIdMapping, stackBalances, unwindFunctionIds, inFilterMapping, trackedCoverage
      reads set t | t in trackedCoverage.inner :: trackedCoverage.inner[t]
    {
      thread in s.coverage &&
      var f := Finished(if thread in s.mapping then s.mapping[thread] else 0, s.coverage[thread]);
      Known() == Keep(s.(coverage := s.coverage - {thread}, balances := s.balances - {thread}, filters := s.filters - {thread},
                         mapping := if cfg.passive then s.mapping else s.mapping - {thread}), f)
    }

    lemma CoverageKeys()
      ensures forall t :: t in trackedCoverage.inner <==> t in Coverage()
    {
    }

    method LoseCurrentThread(thread: Thread)
      requires Valid() && IsTracked(thread) && stackBalances.inner[thread] == 0 && thread in trackedCoverage.inner
      requires thread in inFilterMapping.inner && inFilterMapping.inner[thread] == 0
      requires cfg.passive || thread in threadIdMapping.inner
      modifies this, trackedCoverage, stackBalances, inFilterMapping, threadIdMapping
      ensures Valid() && HasFinished(thread, old(Known()))
    {
      hide EntryBytes, MethodsOf, Serialized, Histories, Coverage;
      CoverageKeys();
      InvocationFinished(thread);
      stackBalances.Remove(thread);
      inFilterMapping.Remove(thread);
      if !cfg.passive {
        threadIdMapping.Remove(thread);
      }
    }

    // Probes and callbacks

    /** The callback violates no assertion. */
    ghost predicate Allows(thread: Thread, c: Callback)
      reads this, threadIdMapping, stackBalances, unwindFunctionIds, inFilterMapping, trackedCoverage
      reads set t | t in trackedCoverage.inner :: trackedCoverage.inner[t]
    {
      React(cfg, thread, LocalOf(Known(), thread), c).Reaction?
    }

    /** The trackers have made the step that the protocol prescribes for the callback. */
    ghost predicate Stepped(s: State, thread: Thread, c: Callback)
      reads this, threadIdMapping, stackBalances, unwindFunctionIds, inFilterMapping, trackedCoverage
      reads set t | t in trackedCoverage.inner :: trackedCoverage.inner[t]
    {
      Step(cfg, s, On(thread, c)).Outcome? && Known() == Step(cfg, s, On(thread, c)).state
    }

    ghost function Footprint(): set<object>
      reads trackedCoverage
    {
      {this, threadIdMapping, stackBalances, unwindFunctionIds, inFilterMapping, trackedCoverage}
      + set t | t in trackedCoverage.inner :: trackedCoverage.inner[t]
    }

    method MapCurrentThread(thread: Thread, mapId: int)
      requires Valid() && Allows(thread, MapsThread(mapId))
      modifies threadIdMapping
      ensures Valid() && Stepped(old(Known()), thread, MapsThread(mapId))
    {
      hide EntryBytes, MethodsOf, React, Step;
      MapStep(cfg, Known(), thread, mapId);
      threadIdMapping.Store(thread, mapId);
    }

    method TrackEnterMain(thread: Thread, offset: int, methodId: int)
      requires Valid() && Allows(thread, EntersMain(offset, methodId))
      modifies Footprint()
      ensures Valid() && Stepped(old(Known()), thread, EntersMain(offset, methodId))
    {
      hide EntryBytes, MethodsOf, React, Step, LocalOf, Serialized, Histories, Coverage;
      EnterStep(cfg, Known(), thread, offset, methodId);
      if IsTracked(thread) {
        StackBalanceUp(thread);
        return;
      }
      FirstFrame(thread);
      AddCoverage(thread, offset, EnterMain, methodId);
    }

    method FirstFrame(thread: Thread)
      requires Storages() && !IsTracked(thread) && thread !in inFilterMapping.inner
      modifies stackBalances, inFilterMapping
      ensures stackBalances.inner == old(stackBalances.inner)[thread := 1]
      ensures inFilterMapping.inner == old(inFilterMapping.inner)[thread := 0]
    {
      TrackCurrentThread(thread);
      StackBalanceUp(thread);
    }

    /** The probes inside a method. */
    method Track(thread: Thread, probe: InnerProbe, offset: int, methodId: int)
      requires Valid() && Allows(thread, Hits(RecordedAs(probe), offset, methodId))
      modifies Footprint()
      ensures Valid() && Stepped(old(Known()), thread, Hits(RecordedAs(probe), offset, methodId))
    {
      hide EntryBytes, MethodsOf, React, Step;
      var event := RecordedAs(probe);
      HitStep(cfg, Known(), thread, event, offset, methodId);
      if !IsTracked(thread) {
        return;
      }
      AddCoverage(thread, offset, event, methodId);
    }

    /** The frame is gone before the tail call starts; nothing looks whether it was the last. */
    method TrackTailcall(thread: Thread, offset: int, methodId: int)
      requires Valid() && Allows(thread, TailCalls(offset, methodId))
      modifies Footprint()
      ensures Valid() && Stepped(old(Known()), thread, TailCalls(offset, methodId))
    {
      hide EntryBytes, MethodsOf, React, Step, LocalOf, Serialized, Histories, Coverage;
      TailCallStep(cfg, Known(), thread, offset, methodId);
      CoverageKeys();
      if !IsTracked(thread) {
        return;
      }
      var left := StackBalanceDown(thread);
      AddCoverage(thread, offset, Tailcall, methodId);
    }

    method UnwindFunctionEnter(thread: Thread, functionId: FunctionId)
      requires Valid() && Allows(thread, UnwindEnters(functionId))
      modifies unwindFunctionIds
      ensures Valid() && Stepped(old(Known()), thread, UnwindEnters(functionId))
    {
      hide EntryBytes, MethodsOf, React, Step;
      UnwindEnterStep(cfg, Known(), thread, functionId);
      if IsTracked(thread) {
        unwindFunctionIds.StoreOrUpdate(thread, functionId);
      }
    }

    method FilterEnter(thread: Thread)
      requires Valid() && Allows(thread, FilterEnters)
      modifies inFilterMapping
      ensures Valid() && Stepped(old(Known()), thread, FilterEnters)
    {
      hide EntryBytes, MethodsOf, React, Step;
      FilterStep(cfg, Known(), thread);
      if IsTracked(thread) {
        var depth := inFilterMapping.Update(thread, value => value + 1);
      }
    }

    method FilterLeave(thread: Thread)
      requires Valid() && Allows(thread, FilterLeaves)
      modifies inFilterMapping
      ensures Valid() && Stepped(old(Known()), thread, FilterLeaves)
    {
      hide EntryBytes, MethodsOf, React, Step;
      FilterStep(cfg, Known(), thread);
      if IsTracked(thread) {
        var depth := inFilterMapping.Update(thread, value => value - 1);
      }
    }

    /** One main frame less; the last one ends the invocation. */
    method FrameLeft(thread: Thread)
      requires Valid() && IsTracked(thread) && FrameDown(cfg, LocalOf(Known(), thread)).Reaction?
      modifies this, trackedCoverage, stackBalances, inFilterMapping, threadIdMapping
      ensures Valid() && Known() == FrameGone(cfg, old(Known()), thread)
    {
      hide EntryBytes, MethodsOf, KeepAll;
      ghost var s := Known();
      KeepNone(WithLocal(s, thread, FrameDown(cfg, LocalOf(s, thread)).local));
      Puts(s, thread);
      var left := StackBalanceDown(thread);
      if left {
        return;
      }
      ghost var zero := Known();
      LoseCurrentThread(thread);
      LastFrame(cfg, s, zero, thread);
    }

    method TrackLeaveMain(thread: Thread, offset: int, methodId: int)
      requires Valid() && Allows(thread, LeavesMain(offset, methodId))
      modifies Footprint()
      ensures Valid() && Stepped(old(Known()), thread, LeavesMain(offset, methodId))
    {
      hide EntryBytes, MethodsOf, React, Step, FrameDown, FrameGone;
      LeaveStep(cfg, Known(), thread, offset, methodId);
      if !IsTracked(thread) {
        return;
      }
      AddCoverage(thread, offset, LeaveMain, methodId);
      FrameLeft(thread);
    }

    method UnwindFunctionLeave(thread: Thread)
      requires Valid() && Allows(thread, UnwindLeaves)
      modifies Footprint()
      ensures Valid() && Stepped(old(Known()), thread, UnwindLeaves)
    {
      hide EntryBytes, MethodsOf, React, Step, FrameDown, FrameGone, LocalOf, Serialized, Histories, Coverage;
      UnwindLeaveStep(cfg, Known(), thread);
      if !IsTracked(thread) {
        return;
      }
      var functionId := unwindFunctionIds.Load(thread);
      unwindFunctionIds.Remove(thread);
      if functionId != cfg.main {
        return;
      }
      var inFilter := inFilterMapping.Load(thread);
      var balance := stackBalances.Load(thread);
      if inFilter <= 0 || balance > 1 {
        FrameLeft(thread);
      }
    }

    // Methods and reports

    method CollectMethod(info: MethodInfo) returns (id: nat)
      requires Valid()
      modifies this
      ensures Valid() && id == |old(collectedMethods)| && Known() == Step(cfg, old(Known()), Collects(info)).state
    {
      hide EntryBytes, MethodsOf;
      id := |collectedMethods|;
      collectedMethods := collectedMethods + [info];
    }

    /** The methods that have been visited, with their numbers, as bytes. */
    method SerializeMethods() returns (buffer: seq<byte>)
      ensures var table := Table(collectedMethods, visitedMethods, |collectedMethods|); buffer == LE(|table|, 4) + TableBytes(table)
    {
      hide LE, MethodBytes, TableBytes;
      var methodsToSerialize: seq<(int, MethodInfo)> := [];
      for i := 0 to |collectedMethods|
        invariant methodsToSerialize == Table(collectedMethods, visitedMethods, i)
      {
        if i in visitedMethods {
          methodsToSerialize := methodsToSerialize + [(i, collectedMethods[i])];
        }
      }
      var bytes: seq<byte> := [];
      assert TableBytes([]) == [] by { NoTable(); }
      for i := 0 to |methodsToSerialize|
        invariant bytes == TableBytes(methodsToSerialize[..i])
      {
        var el := methodsToSerialize[i];
        TableSnoc(methodsToSerialize[..i], el);
        assert methodsToSerialize[..i + 1] == methodsToSerialize[..i] + [el];
        bytes := bytes + (LE(el.0, 4) + MethodBytes(el.1));
      }
      assert methodsToSerialize[..|methodsToSerialize|] == methodsToSerialize;
      buffer := LE(|methodsToSerialize|, 4) + bytes;
    }

    /** Mapped threads without an entry so far get an empty one. */
    method AddEmptyEntries(mapped: seq<(Thread, int)>)
      requires Serialized()
      modifies this
      ensures Serialized() && collectedMethods == old(collectedMethods) && visitedMethods == old(visitedMethods)
      ensures old(Known()).(entries := entries, entryIds := serializedCoverageThreadIds) == AddEmpty(old(Known()), Numbers(mapped))
    {
      hide EntryBytes, LE;
      ghost var s := Known();
      for i := 0 to |mapped|
        invariant Serialized() && collectedMethods == old(collectedMethods) && visitedMethods == old(visitedMethods)
        invariant AddEmpty(s.(entries := entries, entryIds := serializedCoverageThreadIds), Numbers(mapped[i..])) == AddEmpty(s, Numbers(mapped))
      {
        var threadId := mapped[i].1;
        assert Numbers(mapped[i..])[0] == threadId && Numbers(mapped[i..])[1..] == Numbers(mapped[i + 1..]);
        if threadId !in serializedCoverageThreadIds {
          EmptyBytes(threadId);
          var coverageBuffer := LE(threadId, 4) + LE(1, 4);
          serializedCoverageThreadIds := serializedCoverageThreadIds + [threadId];
          serializedCoverage := serializedCoverage + [coverageBuffer];
          entries := entries + [Empty(threadId)];
        }
      }
    }

    lemma EmptyBytes(threadId: int)
      ensures EntryBytes(Empty(threadId)) == LE(threadId, 4) + LE(1, 4)
    {
    }

    /** The entries of the report, one after the other. */
    method SerializeEntries() returns (buffer: seq<byte>)
      requires Serialized()
      ensures buffer == LE(|entries|, 4) + EntriesBytes(entries)
    {
      hide LE, EntryBytes, EntriesBytes;
      var bytes: seq<byte> := [];
      assert EntriesBytes([]) == [] by { NoTable(); }
      for i := 0 to |serializedCoverage|
        invariant bytes == EntriesBytes(entries[..i])
      {
        EntriesSnoc(entries[..i], entries[i]);
        assert entries[..i + 1] == entries[..i] + [entries[i]];
        bytes := bytes + serializedCoverage[i];
      }
      assert entries[..|serializedCoverage|] == entries;
      buffer := LE(|serializedCoverage|, 4) + bytes;
    }

    /** A request for the history: the report, and all threads forgotten. */
    method GetHistory() returns (bytes: seq<byte>, ghost items: seq<(Thread, int)>)
      requires Valid()
      modifies this, trackedCoverage, threadIdMapping, stackBalances, unwindFunctionIds, inFilterMapping
      ensures Valid() && IsListing(old(threadIdMapping.inner), items)
      ensures var o := Step(cfg, old(Known()), Requests(seq(|items|, i requires 0 <= i < |items| => items[i].1)));
              |o.reports| == 1 && bytes == ReportBytes(o.reports[0]) && Known() == o.state
    {
      hide EntryBytes, EntriesBytes, TableBytes, LE, AddEmpty, Table, Serialized, Histories, Coverage, Forget, Step;
      ghost var s := Known();
      var buffer := SerializeMethods();
      var mapped := threadIdMapping.Items();
      items := mapped;
      AddEmptyEntries(mapped);
      var rest := SerializeEntries();
      AddEmptyRest(s, Numbers(mapped));
      RequestStep(cfg, s, Numbers(mapped));
      assert Numbers(mapped) == seq(|mapped|, i requires 0 <= i < |mapped| => mapped[i].1);
      ForgetAll();
      bytes := buffer + rest;
    }

    method ForgetAll()
      requires Storages()
      modifies this, trackedCoverage, threadIdMapping, stackBalances, unwindFunctionIds, inFilterMapping
      ensures Valid() && Known() == Forget(old(Known()))
    {
      trackedCoverage.Clear();
      serializedCoverage := [];
      entries := [];
      threadIdMapping.Clear();
      stackBalances.Clear();
      unwindFunctionIds.Clear();
      inFilterMapping.Clear();
      assert Coverage() == map[];
    }
  }

  function Numbers(items: seq<(Thread, int)>): (ns: seq<int>)
    ensures |ns| == |items|
  {
    seq(|items|, i requires 0 <= i < |items| => items[i].1)
  }

  lemma NoTable()
    ensures TableBytes([]) == [] && EntriesBytes([]) == []
  {
  }

  lemma {:induction false} AddEmptyRest(s: State, mapped: seq<int>)
    ensures AddEmpty(s, mapped) == s.(entries := AddEmpty(s, mapped).entries, entryIds := AddEmpty(s, mapped).entryIds)
    decreases |mapped|
  {
    if mapped != [] {
      if mapped[0] in s.entryIds {
        AddEmptyRest(s, mapped[1..]);
      } else {
        AddEmptyRest(s.(entries := s.entries + [Empty(mapped[0])], entryIds := s.entryIds + [mapped[0]]), mapped[1..]);
      }
    }
  }

  // The steps of the protocol, as changes of the maps

  lemma RequestStep(cfg: Settings, s: State, mapped: seq<int>)
    ensures var o := Step(cfg, s, Requests(mapped)); var s' := AddEmpty(s, mapped);
            && o == CoverageRuns.Outcome(Forget(s'), [], [Report(Table(s.methods, s.visited, |s.methods|), s'.entries)])
            && ReportBytes(o.reports[0]) == (LE(|o.reports[0].table|, 4) + TableBytes(o.reports[0].table))
                                            + (LE(|s'.entries|, 4) + EntriesBytes(s'.entries))
  {
    hide LE, TableBytes, EntriesBytes, AddEmpty, Table;
  }

  lemma MapStep(cfg: Settings, s: State, t: Thread, mapId: int)
    requires React(cfg, t, LocalOf(s, t), MapsThread(mapId)).Reaction?
    ensures var o := Step(cfg, s, On(t, MapsThread(mapId)));
            o.Outcome? && t !in s.mapping && o.state == s.(mapping := s.mapping[t := mapId])
  {
    Puts(s, t);
  }

  /** The records of the thread with one more. */
  function Recorded1(s: State, t: Thread, r: Record): map<Thread, seq<Record>> {
    s.coverage[t := (if t in s.coverage then s.coverage[t] else []) + [r]]
  }

  lemma EnterStep(cfg: Settings, s: State, t: Thread, offset: int, methodId: int)
    requires React(cfg, t, LocalOf(s, t), EntersMain(offset, methodId)).Reaction?
    ensures var o := Step(cfg, s, On(t, EntersMain(offset, methodId)));
            && o.Outcome? && (t in s.balances || t !in s.filters)
            && o.state == if t in s.balances then s.(balances := s.balances[t := s.balances[t] + 1])
                          else s.(balances := s.balances[t := 1], filters := s.filters[t := 0],
                                  coverage := Recorded1(s, t, Record(offset, EnterMain, t, methodId)))
  {
    Puts(s, t);
    assert [] + [Record(offset, EnterMain, t, methodId)] == [Record(offset, EnterMain, t, methodId)];
  }

  lemma HitStep(cfg: Settings, s: State, t: Thread, event: CoverageEvent, offset: int, methodId: int)
    requires React(cfg, t, LocalOf(s, t), Hits(event, offset, methodId)).Reaction?
    ensures var o := Step(cfg, s, On(t, Hits(event, offset, methodId)));
            && o.Outcome? && (t in s.balances ==> event == EnterMain || t in s.coverage)
            && o.state == if t in s.balances then s.(coverage := Recorded1(s, t, Record(offset, event, t, methodId))) else s
  {
    Puts(s, t);
    assert [] + [Record(offset, event, t, methodId)] == [Record(offset, event, t, methodId)];
  }

  lemma TailCallStep(cfg: Settings, s: State, t: Thread, offset: int, methodId: int)
    requires React(cfg, t, LocalOf(s, t), TailCalls(offset, methodId)).Reaction?
    ensures var o := Step(cfg, s, On(t, TailCalls(offset, methodId)));
            && o.Outcome? && (t in s.balances ==> t in s.coverage && s.balances[t] >= 1)
            && o.state == if t in s.balances then s.(balances := s.balances[t := s.balances[t] - 1],
                                                     coverage := Recorded1(s, t, Record(offset, Tailcall, t, methodId))) else s
  {
    Puts(s, t);
    assert [] + [Record(offset, Tailcall, t, methodId)] == [Record(offset, Tailcall, t, methodId)];
  }

  lemma UnwindEnterStep(cfg: Settings, s: State, t: Thread, functionId: FunctionId)
    requires React(cfg, t, LocalOf(s, t), UnwindEnters(functionId)).Reaction?
    ensures var o := Step(cfg, s, On(t, UnwindEnters(functionId)));
            o.Outcome? && o.state == if t in s.balances then s.(unwinds := s.unwinds[t := functionId]) else s
  {
    Puts(s, t);
  }

  lemma FilterStep(cfg: Settings, s: State, t: Thread)
    requires React(cfg, t, LocalOf(s, t), FilterEnters).Reaction?
          || React(cfg, t, LocalOf(s, t), FilterLeaves).Reaction?
    ensures t in s.balances ==> t in s.filters
    ensures var o := Step(cfg, s, On(t, FilterEnters));
            o.Outcome? && o.state == if t in s.balances then s.(filters := s.filters[t := s.filters[t] + 1]) else s
    ensures var o := Step(cfg, s, On(t, FilterLeaves));
            o.Outcome? && o.state == if t in s.balances then s.(filters := s.filters[t := s.filters[t] - 1]) else s
  {
    Puts(s, t);
  }

  /** The state after one main frame of the thread is gone. */
  function FrameGone(cfg: Settings, s: State, t: Thread): State
    requires t in s.balances && FrameDown(cfg, LocalOf(s, t)).Reaction?
  {
    var r := FrameDown(cfg, LocalOf(s, t));
    KeepAll(WithLocal(s, t, r.local), r.finished)
  }

  lemma LeaveStep(cfg: Settings, s: State, t: Thread, offset: int, methodId: int)
    requires React(cfg, t, LocalOf(s, t), LeavesMain(offset, methodId)).Reaction?
    ensures var o := Step(cfg, s, On(t, LeavesMain(offset, methodId)));
            && o.Outcome?
            && (t !in s.balances ==> o.state == s)
            && (t in s.balances ==>
                  var s1 := s.(coverage := Recorded1(s, t, Record(offset, LeaveMain, t, methodId)));
                  t in s.coverage && FrameDown(cfg, LocalOf(s1, t)).Reaction? && o.state == FrameGone(cfg, s1, t))
  {
    hide FrameDown, KeepAll, MethodsOf;
    Puts(s, t);
    if t in s.balances {
      var s1 := s.(coverage := Recorded1(s, t, Record(offset, LeaveMain, t, methodId)));
      ReactedTo(cfg, s, s1, t);
    } else {
      KeepNone(s);
    }
  }

  lemma UnwindLeaveStep(cfg: Settings, s: State, t: Thread)
    requires React(cfg, t, LocalOf(s, t), UnwindLeaves).Reaction?
    ensures var o := Step(cfg, s, On(t, UnwindLeaves));
            && o.Outcome?
            && (t !in s.balances ==> o.state == s)
            && (t in s.balances ==>
                  var s1 := s.(unwinds := s.unwinds - {t});
                  && t in s.unwinds
                  && (s.unwinds[t] != cfg.main ==> o.state == s1)
                  && (s.unwinds[t] == cfg.main ==>
                        && t in s.filters
                        && (s.filters[t] > 0 && s.balances[t] <= 1 ==> o.state == s1)
                        && (s.filters[t] <= 0 || s.balances[t] > 1 ==>
                              FrameDown(cfg, LocalOf(s1, t)).Reaction? && o.state == FrameGone(cfg, s1, t))))
  {
    hide FrameDown, KeepAll, MethodsOf;
    Puts(s, t);
    KeepNone(s);
    if t in s.balances {
      var s1 := s.(unwinds := s.unwinds - {t});
      KeepNone(s1);
      if s.unwinds[t] == cfg.main && (s.filters[t] <= 0 || s.balances[t] > 1) { ReactedTo(cfg, s, s1, t); }
    }
  }

  /** The rest of a step sees the state that its first part has left. */
  lemma ReactedTo(cfg: Settings, s: State, s1: State, t: Thread)
    requires s1 == WithLocal(s, t, LocalOf(s1, t)) && t in s1.balances && FrameDown(cfg, LocalOf(s1, t)).Reaction?
    ensures var r := FrameDown(cfg, LocalOf(s1, t)); FrameGone(cfg, s1, t) == KeepAll(WithLocal(s, t, r.local), r.finished)
  {
    hide FrameDown, KeepAll;
    PutPut(s, s1, t, FrameDown(cfg, LocalOf(s1, t)).local);
  }

  lemma KeepNone(s: State)
    ensures KeepAll(s, []) == s
  {
  }

  /** Writing back what a thread's maps hold changes nothing. */
  lemma Puts(s: State, t: Thread)
    ensures Put(s.mapping, t, Get(s.mapping, t)) == s.mapping && Put(s.balances, t, Get(s.balances, t)) == s.balances
    ensures Put(s.unwinds, t, Get(s.unwinds, t)) == s.unwinds && Put(s.filters, t, Get(s.filters, t)) == s.filters
    ensures Put(s.coverage, t, Get(s.coverage, t)) == s.coverage
  {
  }

  /** A second change to the same thread's maps replaces the first. */
  lemma PutPut(s: State, s1: State, t: Thread, l: Local)
    requires s1 == WithLocal(s, t, LocalOf(s1, t))
    ensures WithLocal(s1, t, l) == WithLocal(s, t, l)
  {
  }

  /** Finishing the last frame is the step of the protocol. */
  lemma LastFrame(cfg: Settings, s: State, zero: State, t: Thread)
    requires t in s.balances && s.balances[t] == 1 && zero == s.(balances := s.balances[t := 0])
    requires FrameDown(cfg, LocalOf(s, t)).Reaction?
    ensures t in zero.coverage
    ensures var f := Finished(if t in zero.mapping then zero.mapping[t] else 0, zero.coverage[t]);
            FrameGone(cfg, s, t) ==
            Keep(zero.(coverage := zero.coverage - {t}, balances := zero.balances - {t}, filters := zero.filters - {t},
                       mapping := if cfg.passive then zero.mapping else zero.mapping - {t}), f)
  {
    hide MethodsOf;
    Puts(s, t);
    var r := FrameDown(cfg, LocalOf(s, t));
    var f := r.finished[0];
    assert r.finished == [f] && [f][1..] == [];
    KeepNone(Keep(WithLocal(s, t, r.local), f));
    assert zero.balances - {t} == s.balances - {t};
  }
}
