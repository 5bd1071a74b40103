/** The coverage protocol: how one thread's callbacks turn into finished invocations, and how these end up in reports.
    Each callback of the runtime is one step. */
module CoverageProtocol {

  type Thread = nat
  type FunctionId = int

  datatype Option<T> = None | Some(value: T)

  datatype CoverageEvent = EnterMain | Enter | LeaveMain | Leave | BranchHit | Call | Tailcall | TrackCoverage | StsfldHit

  /** The probes inside a main method. */
  datatype InnerProbe = CoverageProbe | StsfldProbe | BranchProbe | CallProbe | ThrowProbe

  /** The event that a probe records.  A `throw` is recorded as leaving the method. */
  function RecordedAs(p: InnerProbe): CoverageEvent {
    match p
    case CoverageProbe => TrackCoverage
    case StsfldProbe => StsfldHit
    case BranchProbe => BranchHit
    case CallProbe => Call
    case ThrowProbe => Leave
  }

  datatype Record = Record(offset: int, event: CoverageEvent, thread: Thread, methodId: int)

  /** The records of a completed invocation, with the number the thread was mapped to. */
  datatype Finished = Finished(threadId: int, records: seq<Record>)

  /** What the trackers know of one thread. */
  datatype Local = Local(
    mapping: Option<int>, balance: Option<int>, unwind: Option<FunctionId>, filter: Option<int>, coverage: Option<seq<Record>>)

  /** The callbacks that instrumented main methods, exception handling and the thread itself make. */
  datatype Callback =
    | EntersMain(offset: int, methodId: int)
    | LeavesMain(offset: int, methodId: int)
    | TailCalls(offset: int, methodId: int)
    | Hits(event: CoverageEvent, offset: int, methodId: int)
    | UnwindEnters(functionId: FunctionId)
    | UnwindLeaves
    | FilterEnters
    | FilterLeaves
    | MapsThread(mapId: int)

  /** A callback violates an assertion of the trackers, or leaves the thread in a new state and may complete an invocation. */
  datatype Reaction = Violation | Reaction(local: Local, finished: seq<Finished>)

  /** `passive` runs keep the mapping of a thread; `main` is the function whose frames are counted. */
  datatype Settings = Settings(passive: bool, main: FunctionId)

  /** What the runtime never uses as the id of a function. */
  const INCORRECT_FUNCTION: FunctionId := 0

  function MappedId(l: Local): int {
    if l.mapping.Some? then l.mapping.value else 0
  }

  /** The bookkeeping for a thread whose last main frame is gone. */
  function Finish(cfg: Settings, l: Local): Reaction {
    if l.coverage.None? || l.filter.None? || (!cfg.passive && l.mapping.None?) then Violation
    else
      Reaction(l.(balance := None, filter := None, coverage := None, mapping := if cfg.passive then l.mapping else None),
               [Finished(MappedId(l), l.coverage.value)])
  }

  /** A main frame is gone. */
  function FrameDown(cfg: Settings, l: Local): Reaction
    requires l.balance.Some?
  {
    var balance := l.balance.value - 1;
    if balance < 0 then Violation
    else if balance != 0 then Reaction(l.(balance := Some(balance)), [])
    else if l.filter != Some(0) then Violation
    else Finish(cfg, l.(balance := Some(0)))
  }

  function AddRecord(l: Local, r: Record): Reaction {
    if l.coverage.None? && r.event == EnterMain then Reaction(l.(coverage := Some([r])), [])
    else if l.coverage.None? then Violation
    else Reaction(l.(coverage := Some(l.coverage.value + [r])), [])
  }

  function MapThread(l: Local, mapId: int): Reaction {
    if l.mapping.Some? then Violation else Reaction(l.(mapping := Some(mapId)), [])
  }

  /** Callbacks on a thread that is inside a main frame. */
  function ReactTracked(cfg: Settings, t: Thread, l: Local, c: Callback): Reaction
    requires l.balance.Some?
  {
    match c
    case MapsThread(mapId) => MapThread(l, mapId)
    case EntersMain(offset, methodId) => Reaction(l.(balance := Some(l.balance.value + 1)), [])
    case LeavesMain(offset, methodId) =>
      (match AddRecord(l, Record(offset, LeaveMain, t, methodId))
       case Violation => Violation
       case Reaction(l', _) => FrameDown(cfg, l'))
    case TailCalls(offset, methodId) =>
      if l.balance.value <= 0 then Violation
      else AddRecord(l.(balance := Some(l.balance.value - 1)), Record(offset, Tailcall, t, methodId))
    case Hits(event, offset, methodId) => AddRecord(l, Record(offset, event, t, methodId))
    case UnwindEnters(functionId) =>
      if functionId == INCORRECT_FUNCTION then Violation else Reaction(l.(unwind := Some(functionId)), [])
    case UnwindLeaves =>
      if l.unwind.None? then Violation
      else
        var l' := l.(unwind := None);
        if l.unwind.value != cfg.main then Reaction(l', [])
        else if l.filter.None? then Violation
        else if l.filter.value > 0 && l.balance.value <= 1 then Reaction(l', [])
        else FrameDown(cfg, l')
    case FilterEnters => if l.filter.None? then Violation else Reaction(l.(filter := Some(l.filter.value + 1)), [])
    case FilterLeaves => if l.filter.None? then Violation else Reaction(l.(filter := Some(l.filter.value - 1)), [])
  }

  function React(cfg: Settings, t: Thread, l: Local, c: Callback): Reaction {
    if l.balance.Some? then ReactTracked(cfg, t, l, c)
    else if c.MapsThread? then MapThread(l, c.mapId)
    else if !c.EntersMain? then Reaction(l, [])
    else if l.filter.Some? then Violation
    else AddRecord(l.(balance := Some(1), filter := Some(0)), Record(c.offset, EnterMain, t, c.methodId))
  }

  // Invariants of a thread

  /** A thread is known to all trackers or to none.  A known thread is inside a main frame, or has left it by a tail call, and
      its records are its own. */
  predicate Consistent(t: Thread, l: Local) {
    && (l.balance.Some? <==> l.filter.Some?) && (l.balance.Some? <==> l.coverage.Some?)
    && (l.balance.Some? ==> l.balance.value >= 0 && OwnRecords(t, l.coverage.value))
  }

  predicate OwnRecords(t: Thread, rs: seq<Record>) {
    |rs| > 0 && rs[0].event == EnterMain && forall r :: r in rs ==> r.thread == t
  }

  /** Every callback keeps a thread consistent, and what it completes is one invocation of that thread. */
  lemma ReactKeeps(cfg: Settings, t: Thread, l: Local, c: Callback)
    requires Consistent(t, l) && React(cfg, t, l, c).Reaction?
    ensures var r := React(cfg, t, l, c);
            && Consistent(t, r.local) && |r.finished| <= 1
            && (l.balance != Some(0) && !c.TailCalls? ==> r.local.balance != Some(0))
            && (r.finished != [] ==>
                  && OwnRecords(t, r.finished[0].records) && r.local.balance.None?
                  && r.finished[0].threadId == if l.mapping.Some? then l.mapping.value else 0)
    ensures c.MapsThread? ==> React(cfg, t, l, c) == Reaction(l.(mapping := Some(c.mapId)), [])
    ensures l.mapping.Some? && React(cfg, t, l, c).finished == [] ==> React(cfg, t, l, c).local.mapping == l.mapping
  {
  }

  /** The frame of the thread cannot be taken away: there is none, or it is the last, and a filter runs or the thread has no
      number. */
  predicate KeepsFrame(cfg: Settings, l: Local) {
    l.balance == Some(0) || (l.balance == Some(1) && (l.filter != Some(0) || (!cfg.passive && l.mapping.None?)))
  }

  /** Which callbacks violate an assertion, in every state that the trackers agree about; a thread outside main frames may make
      any. */
  lemma AssertionsFail(cfg: Settings, t: Thread, l: Local, c: Callback)
    requires Consistent(t, l)
    ensures React(cfg, t, l, c) == Violation <==>
              if c.MapsThread? then l.mapping.Some?
              else
                && l.balance.Some?
                && match c
                   case LeavesMain(_, _) => KeepsFrame(cfg, l)
                   case TailCalls(_, _) => l.balance == Some(0)
                   case UnwindEnters(functionId) => functionId == 0
                   case UnwindLeaves =>
                     || l.unwind.None?
                     || (l.unwind.value == cfg.main && !(l.filter.value > 0 && l.balance.value <= 1) && KeepsFrame(cfg, l))
                   case _ => false
    ensures l.balance.None? && !c.EntersMain? && !c.MapsThread? ==> React(cfg, t, l, c) == Reaction(l, [])
  {
  }

  /** While a filter runs, nothing ends the invocation: an exception that passes through a main function takes its frame away,
      but never the last one. */
  lemma FilterKeepsFrame(cfg: Settings, t: Thread, l: Local, c: Callback)
    requires Consistent(t, l) && l.filter.Some? && l.filter.value > 0
    ensures React(cfg, t, l, c).Reaction? ==> React(cfg, t, l, c).finished == [] && React(cfg, t, l, c).local.balance.Some?
    ensures c.UnwindLeaves? && l.unwind == Some(cfg.main) ==>
              React(cfg, t, l, c) == Reaction(l.(unwind := None,
                  balance := Some(if l.balance.value <= 1 then l.balance.value else l.balance.value - 1)), [])
  {
  }

  // Well-nested invocations

  /** An invocation of a main method: its own hits, nested invocations, exceptions passing through other functions, exception
      filters and what happens in them, and how its frame goes away.  A tail call leads to a main method again, or to another. */
  datatype Invocation = Invocation(offset: int, methodId: int, body: seq<Item>, exit: Exit)

  datatype Item = Hit(event: CoverageEvent, offset: int, methodId: int) | Nested(inner: Invocation) | Foreign(functionId: FunctionId)
                | Filters(items: seq<Item>)

  datatype Exit =
    | Returns(offset: int, methodId: int)
    | Unwinds
    | TailCallsMain(offset: int, methodId: int, callee: Invocation)
    | TailCallsOther(offset: int, methodId: int)

  function CallbacksOf(cfg: Settings, i: Invocation): seq<Callback> {
    [EntersMain(i.offset, i.methodId)] + (BodyCallbacks(cfg, i.body) + ExitCallbacks(cfg, i.exit))
  }

  function ExitCallbacks(cfg: Settings, exit: Exit): seq<Callback> {
    match exit
    case Returns(offset, methodId) => [LeavesMain(offset, methodId)]
    case Unwinds => [UnwindEnters(cfg.main), UnwindLeaves]
    case TailCallsMain(offset, methodId, callee) => [TailCalls(offset, methodId)] + CallbacksOf(cfg, callee)
    case TailCallsOther(offset, methodId) => [TailCalls(offset, methodId)]
  }

  function BodyCallbacks(cfg: Settings, items: seq<Item>): seq<Callback> {
    if items == [] then [] else ItemCallbacks(cfg, items[0]) + BodyCallbacks(cfg, items[1..])
  }

  function ItemCallbacks(cfg: Settings, item: Item): seq<Callback> {
    match item
    case Hit(event, offset, methodId) => [Hits(event, offset, methodId)]
    case Nested(inner) => CallbacksOf(cfg, inner)
    case Foreign(functionId) => [UnwindEnters(functionId), UnwindLeaves]
    case Filters(items) => [FilterEnters] + BodyCallbacks(cfg, items) + [FilterLeaves]
  }

  /** Exceptions that pass through a main function are the exits of its frames. */
  predicate ForeignOnly(cfg: Settings, items: seq<Item>) {
    items == [] || (ForeignItem(cfg, items[0]) && ForeignOnly(cfg, items[1..]))
  }

  predicate ForeignItem(cfg: Settings, item: Item) {
    match item
    case Hit(_, _, _) => true
    case Nested(inner) => WellNested(cfg, inner)
    case Foreign(functionId) => functionId != cfg.main && functionId != INCORRECT_FUNCTION
    case Filters(items) => ForeignOnly(cfg, items)
  }

  predicate WellNested(cfg: Settings, i: Invocation) {
    ForeignOnly(cfg, i.body) && (i.exit.TailCallsMain? ==> WellNested(cfg, i.exit.callee))
  }

  /** The frame that the invocation leaves behind is taken away in the end: no tail call leads out of the main methods. */
  predicate Closes(exit: Exit) {
    match exit
    case Returns(_, _) => true
    case Unwinds => true
    case TailCallsMain(_, _, callee) => Closes(callee.exit)
    case TailCallsOther(_, _) => false
  }

  /** The records of an invocation.  Entering a nested one leaves no record, returning from it does. */
  function RecordsOf(t: Thread, i: Invocation): seq<Record> {
    [Record(i.offset, EnterMain, t, i.methodId)] + InnerRecords(t, i)
  }

  function InnerRecords(t: Thread, i: Invocation): seq<Record> {
    BodyRecords(t, i.body) + ExitRecords(t, i.exit)
  }

  function ExitRecords(t: Thread, exit: Exit): seq<Record> {
    match exit
    case Returns(offset, methodId) => [Record(offset, LeaveMain, t, methodId)]
    case Unwinds => []
    case TailCallsMain(offset, methodId, callee) => [Record(offset, Tailcall, t, methodId)] + InnerRecords(t, callee)
    case TailCallsOther(offset, methodId) => [Record(offset, Tailcall, t, methodId)]
  }

  function BodyRecords(t: Thread, items: seq<Item>): seq<Record> {
    if items == [] then [] else ItemRecords(t, items[0]) + BodyRecords(t, items[1..])
  }

  function ItemRecords(t: Thread, item: Item): seq<Record> {
    match item
    case Hit(event, offset, methodId) => [Record(offset, event, t, methodId)]
    case Nested(inner) => InnerRecords(t, inner)
    case Foreign(_) => []
    case Filters(items) => BodyRecords(t, items)
  }

  /** A thread's callbacks one after the other; what they complete is collected in order. */
  function ReactAll(cfg: Settings, t: Thread, l: Local, cs: seq<Callback>): Reaction
    decreases |cs|
  {
    if cs == [] then Reaction(l, [])
    else
      match React(cfg, t, l, cs[0])
      case Violation => Violation
      case Reaction(l', fs) =>
        match ReactAll(cfg, t, l', cs[1..])
        case Violation => Violation
        case Reaction(l'', gs) => Reaction(l'', fs + gs)
  }

  lemma {:induction false} ReactConcat(cfg: Settings, t: Thread, l: Local, cs: seq<Callback>, ds: seq<Callback>)
    ensures ReactAll(cfg, t, l, cs + ds) ==
              match ReactAll(cfg, t, l, cs)
              case Violation => Violation
              case Reaction(l', fs) =>
                match ReactAll(cfg, t, l', ds)
                case Violation => Violation
                case Reaction(l'', gs) => Reaction(l'', fs + gs)
    decreases |cs|
  {
    hide React;
    if cs == [] {
      assert cs + ds == ds;
      match ReactAll(cfg, t, l, ds) case Violation => case Reaction(l'', gs) => assert [] + gs == gs;
    } else {
      assert (cs + ds)[1..] == cs[1..] + ds;
      match React(cfg, t, l, cs[0])
      case Violation =>
      case Reaction(l', fs) =>
        ReactConcat(cfg, t, l', cs[1..], ds);
        match ReactAll(cfg, t, l', cs[1..])
        case Violation =>
        case Reaction(m, gs) =>
          match ReactAll(cfg, t, m, ds) case Violation => case Reaction(n, hs) => assert fs + (gs + hs) == (fs + gs) + hs;
    }
  }

  /** The state of a thread inside a main frame, with no exception pending. */
  predicate Running(l: Local) {
    l.balance.Some? && l.balance.value >= 1 && l.filter.Some? && l.filter.value >= 0 && l.unwind.None? && l.coverage.Some?
  }

  function WithRecords(l: Local, rs: seq<Record>): Local
    requires l.coverage.Some?
  {
    l.(coverage := Some(l.coverage.value + rs))
  }

  lemma {:induction false} BodyReacts(cfg: Settings, t: Thread, l: Local, items: seq<Item>)
    requires Running(l) && cfg.main != INCORRECT_FUNCTION && ForeignOnly(cfg, items)
    ensures ReactAll(cfg, t, l, BodyCallbacks(cfg, items)) == Reaction(WithRecords(l, BodyRecords(t, items)), [])
    decreases items
  {
    if items == [] {
      assert l.coverage.value + [] == l.coverage.value;
    } else {
      var l' := WithRecords(l, ItemRecords(t, items[0]));
      ItemReacts(cfg, t, l, items[0]);
      BodyReacts(cfg, t, l', items[1..]);
      ReactConcat(cfg, t, l, ItemCallbacks(cfg, items[0]), BodyCallbacks(cfg, items[1..]));
      assert l.coverage.value + ItemRecords(t, items[0]) + BodyRecords(t, items[1..])
          == l.coverage.value + (ItemRecords(t, items[0]) + BodyRecords(t, items[1..]));
    }
  }

  lemma {:induction false} ItemReacts(cfg: Settings, t: Thread, l: Local, item: Item)
    requires Running(l) && cfg.main != INCORRECT_FUNCTION && ForeignItem(cfg, item)
    ensures ReactAll(cfg, t, l, ItemCallbacks(cfg, item)) == Reaction(WithRecords(l, ItemRecords(t, item)), [])
    decreases item
  {
    match item
    case Hit(event, offset, methodId) => OneReacts(cfg, t, l, Hits(event, offset, methodId));
    case Foreign(functionId) =>
      TwoReact(cfg, t, l, UnwindEnters(functionId), UnwindLeaves);
      assert l.coverage.value + [] == l.coverage.value;
    case Nested(inner) => NestedReacts(cfg, t, l, inner);
    case Filters(items) =>
      var inside := l.(filter := Some(l.filter.value + 1));
      OneReacts(cfg, t, l, FilterEnters);
      BodyReacts(cfg, t, inside, items);
      ReactConcat(cfg, t, l, [FilterEnters], BodyCallbacks(cfg, items));
      OneReacts(cfg, t, WithRecords(inside, BodyRecords(t, items)), FilterLeaves);
      ReactConcat(cfg, t, l, [FilterEnters] + BodyCallbacks(cfg, items), [FilterLeaves]);
  }

  lemma OneReacts(cfg: Settings, t: Thread, l: Local, c: Callback)
    ensures ReactAll(cfg, t, l, [c]) == React(cfg, t, l, c)
  {
    hide React;
    assert [c][1..] == [];
    match React(cfg, t, l, c) case Violation => case Reaction(l', fs) => assert fs + [] == fs;
  }

  lemma TwoReact(cfg: Settings, t: Thread, l: Local, c: Callback, d: Callback)
    requires React(cfg, t, l, c).Reaction? && React(cfg, t, l, c).finished == []
    ensures ReactAll(cfg, t, l, [c, d]) == React(cfg, t, React(cfg, t, l, c).local, d)
  {
    hide React;
    assert [c, d][1..] == [d];
    OneReacts(cfg, t, React(cfg, t, l, c).local, d);
    match React(cfg, t, React(cfg, t, l, c).local, d) case Violation => case Reaction(l', fs) => assert [] + fs == fs;
  }

  /** A nested invocation leaves its records and nothing else. */
  lemma {:induction false} NestedReacts(cfg: Settings, t: Thread, l: Local, i: Invocation)
    requires Running(l) && cfg.main != INCORRECT_FUNCTION && WellNested(cfg, i)
    ensures ReactAll(cfg, t, l, CallbacksOf(cfg, i)) == Reaction(WithRecords(l, InnerRecords(t, i)), [])
    decreases i, 0
  {
    var up := l.(balance := Some(l.balance.value + 1));
    var inside := WithRecords(up, BodyRecords(t, i.body));
    OneReacts(cfg, t, l, EntersMain(i.offset, i.methodId));
    BodyReacts(cfg, t, up, i.body);
    NestedExit(cfg, t, WithRecords(l, BodyRecords(t, i.body)), i.exit);
    ReactConcat(cfg, t, up, BodyCallbacks(cfg, i.body), ExitCallbacks(cfg, i.exit));
    ReactConcat(cfg, t, l, [EntersMain(i.offset, i.methodId)], BodyCallbacks(cfg, i.body) + ExitCallbacks(cfg, i.exit));
    assert l.coverage.value + BodyRecords(t, i.body) + ExitRecords(t, i.exit) == l.coverage.value + InnerRecords(t, i);
  }

  /** The end of a frame inside another one; `l` is the state without the frame. */
  lemma {:induction false} NestedExit(cfg: Settings, t: Thread, l: Local, exit: Exit)
    requires Running(l) && cfg.main != INCORRECT_FUNCTION && (exit.TailCallsMain? ==> WellNested(cfg, exit.callee))
    ensures ReactAll(cfg, t, l.(balance := Some(l.balance.value + 1)), ExitCallbacks(cfg, exit)) == Reaction(WithRecords(l, ExitRecords(t, exit)), [])
    decreases exit, 0
  {
    var up := l.(balance := Some(l.balance.value + 1));
    match exit
    case Returns(offset, methodId) => OneReacts(cfg, t, up, LeavesMain(offset, methodId));
    case Unwinds =>
      TwoReact(cfg, t, up, UnwindEnters(cfg.main), UnwindLeaves);
      assert l.coverage.value + [] == l.coverage.value;
    case TailCallsOther(offset, methodId) => OneReacts(cfg, t, up, TailCalls(offset, methodId));
    case TailCallsMain(offset, methodId, callee) =>
      var r := [Record(offset, Tailcall, t, methodId)];
      OneReacts(cfg, t, up, TailCalls(offset, methodId));
      NestedReacts(cfg, t, WithRecords(l, r), callee);
      ReactConcat(cfg, t, up, [TailCalls(offset, methodId)], CallbacksOf(cfg, callee));
      assert l.coverage.value + r + InnerRecords(t, callee) == l.coverage.value + (r + InnerRecords(t, callee));
  }

  /** A thread that may enter its first main frame. */
  predicate Entering(cfg: Settings, l: Local) {
    cfg.main != INCORRECT_FUNCTION && l.balance.None? && l.filter.None? && l.coverage.None? && l.unwind.None? && (cfg.passive || l.mapping.Some?)
  }

  /** A thread whose last main frame is gone by a tail call. */
  predicate Left(cfg: Settings, l: Local) {
    && cfg.main != INCORRECT_FUNCTION && l.balance == Some(0) && l.filter == Some(0) && l.unwind.None? && l.coverage.Some?
    && (cfg.passive || l.mapping.Some?)
  }

  /** What a thread is left with when its outermost invocation has made the records `rs`. */
  function AfterOutermost(cfg: Settings, l: Local, rs: seq<Record>, closes: bool): Reaction {
    if closes then
      Reaction(l.(balance := None, filter := None, coverage := None, mapping := if cfg.passive then l.mapping else None), [Finished(MappedId(l), rs)])
    else Reaction(l.(balance := Some(0), filter := Some(0), coverage := Some(rs)), [])
  }

  /** The end of the last frame; `l` is the state without the frame. */
  lemma {:induction false} LastExit(cfg: Settings, t: Thread, l: Local, exit: Exit)
    requires Left(cfg, l) && (exit.TailCallsMain? ==> WellNested(cfg, exit.callee))
    ensures ReactAll(cfg, t, l.(balance := Some(1)), ExitCallbacks(cfg, exit)) ==
              AfterOutermost(cfg, l, l.coverage.value + ExitRecords(t, exit), Closes(exit))
    decreases exit, 0
  {
    var up := l.(balance := Some(1));
    match exit
    case Returns(offset, methodId) => OneReacts(cfg, t, up, LeavesMain(offset, methodId));
    case Unwinds =>
      TwoReact(cfg, t, up, UnwindEnters(cfg.main), UnwindLeaves);
      assert l.coverage.value + [] == l.coverage.value;
    case TailCallsOther(offset, methodId) => OneReacts(cfg, t, up, TailCalls(offset, methodId));
    case TailCallsMain(offset, methodId, callee) =>
      var r := [Record(offset, Tailcall, t, methodId)];
      OneReacts(cfg, t, up, TailCalls(offset, methodId));
      LastReacts(cfg, t, WithRecords(l, r), callee);
      ReactConcat(cfg, t, up, [TailCalls(offset, methodId)], CallbacksOf(cfg, callee));
      assert l.coverage.value + r + InnerRecords(t, callee) == l.coverage.value + (r + InnerRecords(t, callee));
      NoneBefore(ReactAll(cfg, t, WithRecords(l, r), CallbacksOf(cfg, callee)));
  }

  lemma NoneBefore(r: Reaction)
    requires r.Reaction?
    ensures [] + r.finished == r.finished
  {
  }

  /** An invocation that a tail call of the last frame leads to takes its place. */
  lemma {:induction false} LastReacts(cfg: Settings, t: Thread, l: Local, i: Invocation)
    requires Left(cfg, l) && WellNested(cfg, i)
    ensures ReactAll(cfg, t, l, CallbacksOf(cfg, i)) == AfterOutermost(cfg, l, l.coverage.value + InnerRecords(t, i), Closes(i.exit))
    decreases i, 0
  {
    OneReacts(cfg, t, l, EntersMain(i.offset, i.methodId));
    InsideReacts(cfg, t, l, i);
    ReactConcat(cfg, t, l, [EntersMain(i.offset, i.methodId)], BodyCallbacks(cfg, i.body) + ExitCallbacks(cfg, i.exit));
    NoneBefore(ReactAll(cfg, t, l.(balance := Some(1)), BodyCallbacks(cfg, i.body) + ExitCallbacks(cfg, i.exit)));
  }

  /** What happens in the last frame once it is entered; `l` is the state without the frame. */
  lemma {:induction false} InsideReacts(cfg: Settings, t: Thread, l: Local, i: Invocation)
    requires Left(cfg, l) && WellNested(cfg, i)
    ensures ReactAll(cfg, t, l.(balance := Some(1)), BodyCallbacks(cfg, i.body) + ExitCallbacks(cfg, i.exit)) ==
              AfterOutermost(cfg, l, l.coverage.value + InnerRecords(t, i), Closes(i.exit))
    decreases i.exit, 1
  {
    hide React, ReactAll, BodyCallbacks, ExitCallbacks, BodyRecords, ExitRecords, ForeignOnly, Closes;
    var up := l.(balance := Some(1));
    var after := WithRecords(l, BodyRecords(t, i.body));
    BodyReacts(cfg, t, up, i.body);
    LastExit(cfg, t, after, i.exit);
    ReactConcat(cfg, t, up, BodyCallbacks(cfg, i.body), ExitCallbacks(cfg, i.exit));
    NoneBefore(ReactAll(cfg, t, after.(balance := Some(1)), ExitCallbacks(cfg, i.exit)));
    assert l.coverage.value + BodyRecords(t, i.body) + ExitRecords(t, i.exit) == l.coverage.value + InnerRecords(t, i);
  }

  /** A well-nested invocation violates no assertion.  If its last frame is taken away by a return or an exception, it is
      finished exactly once, then, with its records in order.  If a tail call leads out of the main methods instead, it is
      not finished: the thread stays tracked, without a frame. */
  lemma InvocationFinishes(cfg: Settings, t: Thread, l: Local, i: Invocation)
    requires Entering(cfg, l) && WellNested(cfg, i)
    ensures ReactAll(cfg, t, l, CallbacksOf(cfg, i)) ==
              if Closes(i.exit) then Reaction(l.(mapping := if cfg.passive then l.mapping else None), [Finished(MappedId(l), RecordsOf(t, i))])
              else Reaction(l.(balance := Some(0), filter := Some(0), coverage := Some(RecordsOf(t, i))), [])
  {
    var first := [Record(i.offset, EnterMain, t, i.methodId)];
    var left := l.(balance := Some(0), filter := Some(0), coverage := Some(first));
    OneReacts(cfg, t, l, EntersMain(i.offset, i.methodId));
    InsideReacts(cfg, t, left, i);
    ReactConcat(cfg, t, l, [EntersMain(i.offset, i.methodId)], BodyCallbacks(cfg, i.body) + ExitCallbacks(cfg, i.exit));
    NoneBefore(ReactAll(cfg, t, left.(balance := Some(1)), BodyCallbacks(cfg, i.body) + ExitCallbacks(cfg, i.exit)));
  }

  /** The invocation that such a tail call has left behind is finished with the next one of its thread, as if that belonged
      to it. */
  lemma TailCallMerges(cfg: Settings, t: Thread, l: Local, i: Invocation, j: Invocation)
    requires Entering(cfg, l) && WellNested(cfg, i) && WellNested(cfg, j) && !Closes(i.exit) && Closes(j.exit)
    ensures ReactAll(cfg, t, l, CallbacksOf(cfg, i) + CallbacksOf(cfg, j)) ==
              Reaction(l.(mapping := if cfg.passive then l.mapping else None),
                       [Finished(MappedId(l), RecordsOf(t, i) + InnerRecords(t, j))])
  {
    InvocationFinishes(cfg, t, l, i);
    var left := l.(balance := Some(0), filter := Some(0), coverage := Some(RecordsOf(t, i)));
    LastReacts(cfg, t, left, j);
    ReactConcat(cfg, t, l, CallbacksOf(cfg, i), CallbacksOf(cfg, j));
    NoneBefore(ReactAll(cfg, t, left, CallbacksOf(cfg, j)));
  }

  /** The trackers remember one unwound function per thread.  If a second unwind starts before the first is over, an
      assertion fails, unless the end of the second one finishes the invocation: both functions have ids, the second is the
      main one, and the thread is in its last main frame, outside filters, and can be lost. */
  lemma NestedUnwindsFail(cfg: Settings, t: Thread, l: Local, f: FunctionId, g: FunctionId)
    requires Consistent(t, l) && l.balance.Some?
    ensures ReactAll(cfg, t, l, [UnwindEnters(f), UnwindEnters(g), UnwindLeaves, UnwindLeaves]) == Violation <==>
              !(&& f != INCORRECT_FUNCTION && g != INCORRECT_FUNCTION && g == cfg.main
                && l.balance == Some(1) && l.filter == Some(0) && (cfg.passive || l.mapping.Some?))
  {
    var l' := l.(unwind := Some(g));
    var r := React(cfg, t, l', UnwindLeaves);
    var cs := [UnwindEnters(f), UnwindEnters(g), UnwindLeaves, UnwindLeaves];
    assert cs == [UnwindEnters(f), UnwindEnters(g)] + [UnwindLeaves, UnwindLeaves];
    ReactConcat(cfg, t, l, [UnwindEnters(f), UnwindEnters(g)], [UnwindLeaves, UnwindLeaves]);
    assert [UnwindEnters(f), UnwindEnters(g)] == [UnwindEnters(f)] + [UnwindEnters(g)];
    ReactConcat(cfg, t, l, [UnwindEnters(f)], [UnwindEnters(g)]);
    OneReacts(cfg, t, l, UnwindEnters(f));
    OneReacts(cfg, t, l.(unwind := Some(f)), UnwindEnters(g));
    assert [UnwindLeaves, UnwindLeaves] == [UnwindLeaves] + [UnwindLeaves];
    ReactConcat(cfg, t, l', [UnwindLeaves], [UnwindLeaves]);
    OneReacts(cfg, t, l', UnwindLeaves);
    if r.Reaction? { OneReacts(cfg, t, r.local, UnwindLeaves); }
  }

  /** Nothing is known of the thread. */
  const UNKNOWN := Local(None, None, None, None, None)

  /** A run from the start that fails: a numbered thread enters a main method, and while a first exception unwinds it, a
      second one unwinds some other function. */
  lemma NestedUnwindsReached(cfg: Settings, t: Thread, f: FunctionId, g: FunctionId)
    requires g != cfg.main
    ensures ReactAll(cfg, t, UNKNOWN, [MapsThread(1), EntersMain(0, 0), UnwindEnters(f), UnwindEnters(g), UnwindLeaves, UnwindLeaves]) == Violation
  {
    var start, unwinds := [MapsThread(1), EntersMain(0, 0)], [UnwindEnters(f), UnwindEnters(g), UnwindLeaves, UnwindLeaves];
    TwoReact(cfg, t, UNKNOWN, MapsThread(1), EntersMain(0, 0));
    NestedUnwindsFail(cfg, t, ReactAll(cfg, t, UNKNOWN, start).local, f, g);
    ReactConcat(cfg, t, UNKNOWN, start, unwinds);
    assert start + unwinds == [MapsThread(1), EntersMain(0, 0), UnwindEnters(f), UnwindEnters(g), UnwindLeaves, UnwindLeaves];
  }
}
