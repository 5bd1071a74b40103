/** The bytes of a coverage report, and the decoder of the coverage tool. */
module CoverageReports {
  import opened Bytes
  import opened CoverageProtocol
  import opened CoverageRuns

  // Writing

  function EventCode(e: CoverageEvent): (c: nat)
    ensures c < 9
  {
    match e
    case EnterMain => 0 case Enter => 1 case LeaveMain => 2 case Leave => 3 case BranchHit => 4
    case Call => 5 case Tailcall => 6 case TrackCoverage => 7 case StsfldHit => 8
  }

  function RecordBytes(r: Record): (b: seq<byte>)
    ensures |b| == 20
  {
    LE(r.offset, 4) + LE(EventCode(r.event), 4) + LE(r.methodId, 4) + LE(r.thread, 8)
  }

  function RecordsBytes(rs: seq<Record>): (b: seq<byte>)
    ensures |b| == 20 * |rs|
  {
    if rs == [] then [] else RecordBytes(rs[0]) + RecordsBytes(rs[1..])
  }

  function HistoryBytes(rs: seq<Record>): seq<byte> {
    LE(|rs|, 4) + RecordsBytes(rs)
  }

  function EntryBytes(e: Entry): seq<byte> {
    match e
    case Completed(f) => LE(f.threadId, 4) + LE(0, 4) + HistoryBytes(f.records)
    case Empty(threadId) => LE(threadId, 4) + LE(1, 4)
  }

  function EntriesBytes(es: seq<Entry>): seq<byte> {
    if es == [] then [] else EntryBytes(es[0]) + EntriesBytes(es[1..])
  }

  function CharsBytes(s: seq<nat>): (b: seq<byte>)
    ensures |b| == 2 * |s|
  {
    if s == [] then [] else LE(s[0], 2) + CharsBytes(s[1..])
  }

  function MethodBytes(m: MethodInfo): seq<byte> {
    LE(m.token, 4) + (LE(|m.assemblyName|, 4) + CharsBytes(m.assemblyName)) + (LE(|m.moduleName|, 4) + CharsBytes(m.moduleName))
  }

  function TableBytes(table: seq<(int, MethodInfo)>): seq<byte> {
    if table == [] then [] else LE(table[0].0, 4) + MethodBytes(table[0].1) + TableBytes(table[1..])
  }

  function ReportBytes(r: Report): seq<byte> {
    LE(|r.table|, 4) + TableBytes(r.table) + (LE(|r.entries|, 4) + EntriesBytes(r.entries))
  }

  lemma {:induction false} TableSnoc(table: seq<(int, MethodInfo)>, p: (int, MethodInfo))
    ensures TableBytes(table + [p]) == TableBytes(table) + (LE(p.0, 4) + MethodBytes(p.1))
  {
    hide LE, MethodBytes;
    if table == [] {
      assert ([p])[1..] == [];
    } else {
      assert (table + [p])[1..] == table[1..] + [p];
      TableSnoc(table[1..], p);
    }
  }

  lemma {:induction false} EntriesSnoc(es: seq<Entry>, e: Entry)
    ensures EntriesBytes(es + [e]) == EntriesBytes(es) + EntryBytes(e)
  {
    hide EntryBytes;
    if es == [] {
      assert ([e])[1..] == [];
    } else {
      assert (es + [e])[1..] == es[1..] + [e];
      EntriesSnoc(es[1..], e);
    }
  }

  // Reading

  /** A value that has been read, and where reading goes on. */
  datatype Read<T> = Failure | Read(value: T, next: nat)

  datatype RawMethodInfo = RawMethodInfo(methodToken: nat, assemblyName: seq<nat>, moduleName: seq<nat>)
  datatype RawCoverageLocation = RawCoverageLocation(offset: nat, event: int, methodId: int, threadId: nat)
  datatype RawCoverageReport = RawCoverageReport(threadId: int, rawCoverageLocations: seq<RawCoverageLocation>)
  datatype RawCoverageReports = RawCoverageReports(methods: map<int, RawMethodInfo>, reports: seq<RawCoverageReport>)

  function ReadUnsigned(b: seq<byte>, o: nat, k: nat): Read<nat> {
    if o + k > |b| then Failure else Read(FromLE(b[o..o + k]), o + k)
  }

  function ReadInt32(b: seq<byte>, o: nat): Read<int> {
    if o + 4 > |b| then Failure else Read(Signed(FromLE(b[o..o + 4]), 4), o + 4)
  }

  function ReadChars(b: seq<byte>, o: nat, n: nat): (s: seq<nat>)
    requires o + 2 * n <= |b|
    ensures |s| == n
    decreases n
  {
    if n == 0 then [] else [FromLE(b[o..o + 2])] + ReadChars(b, o + 2, n - 1)
  }

  /** A string is read without its last character, the terminating null. */
  function ReadString(b: seq<byte>, o: nat): Read<seq<nat>> {
    match ReadInt32(b, o)
    case Failure => Failure
    case Read(size, next) =>
      if size < 1 || next + 2 * (size - 1) > |b| then Failure
      else Read(ReadChars(b, next, size - 1), next + 2 * size)
  }

  function ReadMethod(b: seq<byte>, o: nat): Read<RawMethodInfo> {
    match ReadUnsigned(b, o, 4)
    case Failure => Failure
    case Read(token, o1) =>
      match ReadString(b, o1)
      case Failure => Failure
      case Read(assembly', o2) =>
        match ReadString(b, o2)
        case Failure => Failure
        case Read(module', o3) => Read(RawMethodInfo(token, assembly', module'), o3)
  }

  /** Adding a key twice fails. */
  function ReadMethods(b: seq<byte>, o: nat, n: nat, methods: map<int, RawMethodInfo>): Read<map<int, RawMethodInfo>>
    decreases n
  {
    if n == 0 then Read(methods, o)
    else
      match ReadInt32(b, o)
      case Failure => Failure
      case Read(index, o1) =>
        match ReadMethod(b, o1)
        case Failure => Failure
        case Read(m, o2) => if index in methods then Failure else ReadMethods(b, o2, n - 1, methods[index := m])
  }

  function ReadLocation(b: seq<byte>, o: nat): RawCoverageLocation
    requires o + 20 <= |b|
  {
    RawCoverageLocation(FromLE(b[o..o + 4]), Signed(FromLE(b[o + 4..o + 8]), 4), Signed(FromLE(b[o + 8..o + 12]), 4),
                        FromLE(b[o + 12..o + 20]))
  }

  function ReadLocations(b: seq<byte>, o: nat, n: nat): seq<RawCoverageLocation>
    requires o + 20 * n <= |b|
    decreases n
  {
    if n == 0 then [] else [ReadLocation(b, o)] + ReadLocations(b, o + 20, n - 1)
  }

  function ReadReport(b: seq<byte>, o: nat): Read<RawCoverageReport> {
    match ReadInt32(b, o)
    case Failure => Failure
    case Read(threadId, o1) =>
      match ReadInt32(b, o1)
      case Failure => Failure
      case Read(aborted, o2) =>
        if aborted == 1 then Read(RawCoverageReport(threadId, []), o2)
        else
          match ReadInt32(b, o2)
          case Failure => Failure
          case Read(count, o3) =>
            if count < 0 || o3 + 20 * count > |b| then Failure
            else Read(RawCoverageReport(threadId, ReadLocations(b, o3, count)), o3 + 20 * count)
  }

  function ReadReports(b: seq<byte>, o: nat, n: nat): Read<seq<RawCoverageReport>>
    decreases n
  {
    if n == 0 then Read([], o)
    else
      match ReadReport(b, o)
      case Failure => Failure
      case Read(r, o1) =>
        match ReadReports(b, o1, n - 1)
        case Failure => Failure
        case Read(rs, o2) => Read([r] + rs, o2)
  }

  function Decode(b: seq<byte>): Read<RawCoverageReports> {
    match ReadInt32(b, 0)
    case Failure => Failure
    case Read(count, o1) =>
      match ReadMethods(b, o1, if count < 0 then 0 else count, map[])
      case Failure => Failure
      case Read(methods, o2) =>
        match ReadInt32(b, o2)
        case Failure => Failure
        case Read(n, o3) =>
          if n < 0 then Failure
          else
            match ReadReports(b, o3, n)
            case Failure => Failure
            case Read(reports, o4) => Read(RawCoverageReports(methods, reports), o4)
  }

  // What should be read

  function Trimmed(s: seq<nat>): seq<nat>
    requires s != []
  {
    s[..|s| - 1]
  }

  predicate Named(m: MethodInfo) {
    m.assemblyName != [] && m.moduleName != []
  }

  function Raw(m: MethodInfo): RawMethodInfo
    requires Named(m)
  {
    RawMethodInfo(m.token, Trimmed(m.assemblyName), Trimmed(m.moduleName))
  }

  function RawRecord(r: Record): RawCoverageLocation
    requires FitsRecord(r)
  {
    RawCoverageLocation(r.offset, EventCode(r.event), r.methodId, r.thread)
  }

  function RawRecords(rs: seq<Record>): seq<RawCoverageLocation>
    requires forall r :: r in rs ==> FitsRecord(r)
  {
    if rs == [] then [] else [RawRecord(rs[0])] + RawRecords(rs[1..])
  }

  function RawEntry(e: Entry): RawCoverageReport
    requires FitsEntry(e)
  {
    match e
    case Completed(f) => RawCoverageReport(f.threadId, RawRecords(f.records))
    case Empty(threadId) => RawCoverageReport(threadId, [])
  }

  function RawEntries(es: seq<Entry>): seq<RawCoverageReport>
    requires forall e :: e in es ==> FitsEntry(e)
  {
    if es == [] then [] else [RawEntry(es[0])] + RawEntries(es[1..])
  }

  predicate AllNamed(table: seq<(int, MethodInfo)>) {
    forall p :: p in table ==> Named(p.1)
  }

  function AddMethods(table: seq<(int, MethodInfo)>, methods: map<int, RawMethodInfo>): map<int, RawMethodInfo>
    requires AllNamed(table)
    decreases |table|
  {
    if table == [] then methods else AddMethods(table[1..], methods[table[0].0 := Raw(table[0].1)])
  }

  // Values fit their fields

  predicate FitsRecord(r: Record) {
    0 <= r.offset < TWO_TO_THE_32 && InSigned(r.methodId, 4) && r.thread < Pow256(8)
  }

  predicate FitsEntry(e: Entry) {
    match e
    case Completed(f) => InSigned(f.threadId, 4) && |f.records| < TWO_TO_THE_31 && forall r :: r in f.records ==> FitsRecord(r)
    case Empty(threadId) => InSigned(threadId, 4)
  }

  predicate Wide(s: seq<nat>) {
    forall i :: 0 <= i < |s| ==> s[i] < 0x1_0000
  }

  predicate FitsName(s: seq<nat>) {
    |s| < TWO_TO_THE_31 && Wide(s)
  }

  predicate FitsMethod(p: (int, MethodInfo)) {
    InSigned(p.0, 4) && p.1.token < TWO_TO_THE_32 && FitsName(p.1.assemblyName) && FitsName(p.1.moduleName)
  }

  predicate Fits(r: Report) {
    && |r.table| < TWO_TO_THE_31 && |r.entries| < TWO_TO_THE_31
    && (forall p :: p in r.table ==> FitsMethod(p)) && (forall e :: e in r.entries ==> FitsEntry(e))
  }

  // Reading back

  lemma UnsignedBack(b: seq<byte>, o: nat, v: nat, k: nat)
    requires Stand(b, o, LE(v, k)) && v < Pow256(k)
    ensures ReadUnsigned(b, o, k) == Read(v, o + k) && FromLE(b[o..o + k]) == v
  {
    hide LE, FromLE, Pow256;
    FromToLE(v, k);
    ModUnique(v, Pow256(k), 0, v);
  }

  lemma Int32Back(b: seq<byte>, o: nat, v: int)
    requires Stand(b, o, LE(v, 4)) && InSigned(v, 4)
    ensures ReadInt32(b, o) == Read(v, o + 4) && Signed(FromLE(b[o..o + 4]), 4) == v
  {
    hide LE, FromLE, Pow256;
    FromToLE(v, 4);
    SignedRoundTrip(v, 4);
  }

  lemma CountBack(b: seq<byte>, o: nat, n: nat)
    requires Stand(b, o, LE(n, 4)) && n < TWO_TO_THE_31
    ensures ReadInt32(b, o) == Read(n, o + 4)
  {
    Powers();
    Int32Back(b, o, n);
  }

  lemma RecordBack(b: seq<byte>, o: nat, r: Record)
    requires Stand(b, o, RecordBytes(r)) && FitsRecord(r)
    ensures o + 20 <= |b| && ReadLocation(b, o) == RawRecord(r)
  {
    hide LE, FromLE, Pow256, InSigned, Signed;
    StandTogether(b, o, LE(r.offset, 4) + LE(EventCode(r.event), 4) + LE(r.methodId, 4), LE(r.thread, 8));
    StandTogether(b, o, LE(r.offset, 4) + LE(EventCode(r.event), 4), LE(r.methodId, 4));
    StandTogether(b, o, LE(r.offset, 4), LE(EventCode(r.event), 4));
    Powers();
    UnsignedBack(b, o, r.offset, 4);
    SmallSigned(EventCode(r.event));
    Int32Back(b, o + 4, EventCode(r.event));
    Int32Back(b, o + 8, r.methodId);
    UnsignedBack(b, o + 12, r.thread, 8);
  }

  lemma SmallSigned(v: nat)
    requires v < TWO_TO_THE_31
    ensures InSigned(v, 4)
  {
    Powers();
  }

  lemma {:induction false} LocationsBack(b: seq<byte>, o: nat, rs: seq<Record>)
    requires Stand(b, o, RecordsBytes(rs)) && forall r :: r in rs ==> FitsRecord(r)
    ensures o + 20 * |rs| <= |b| && ReadLocations(b, o, |rs|) == RawRecords(rs)
    decreases |rs|
  {
    hide RecordBytes, FitsRecord, RawRecord, ReadLocation;
    if rs != [] {
      StandTogether(b, o, RecordBytes(rs[0]), RecordsBytes(rs[1..]));
      RecordBack(b, o, rs[0]);
      LocationsBack(b, o + 20, rs[1..]);
    }
  }

  lemma EntryBack(b: seq<byte>, o: nat, e: Entry)
    requires Stand(b, o, EntryBytes(e)) && FitsEntry(e)
    ensures ReadReport(b, o) == Read(RawEntry(e), o + |EntryBytes(e)|)
  {
    hide LE, RecordsBytes, FitsRecord, RawRecords, ReadLocations, ReadInt32, InSigned;
    match e
    case Completed(f) =>
      StandTogether(b, o, LE(f.threadId, 4) + LE(0, 4), HistoryBytes(f.records));
      StandTogether(b, o, LE(f.threadId, 4), LE(0, 4));
      StandTogether(b, o + 8, LE(|f.records|, 4), RecordsBytes(f.records));
      Int32Back(b, o, f.threadId);
      CountBack(b, o + 4, 0);
      CountBack(b, o + 8, |f.records|);
      LocationsBack(b, o + 12, f.records);
    case Empty(threadId) =>
      StandTogether(b, o, LE(threadId, 4), LE(1, 4));
      Int32Back(b, o, threadId);
      CountBack(b, o + 4, 1);
  }

  lemma {:induction false} EntriesBack(b: seq<byte>, o: nat, es: seq<Entry>)
    requires Stand(b, o, EntriesBytes(es)) && forall e :: e in es ==> FitsEntry(e)
    ensures ReadReports(b, o, |es|) == Read(RawEntries(es), o + |EntriesBytes(es)|)
    decreases |es|
  {
    hide EntryBytes, FitsEntry, RawEntry, ReadReport;
    if es != [] {
      StandBounds(b, o, EntriesBytes(es));
      StandTogether(b, o, EntryBytes(es[0]), EntriesBytes(es[1..]));
      EntryBack(b, o, es[0]);
      EntriesBack(b, o + |EntryBytes(es[0])|, es[1..]);
    }
  }

  lemma {:induction false} CharsBack(b: seq<byte>, o: nat, s: seq<nat>, n: nat)
    requires Stand(b, o, CharsBytes(s)) && n <= |s| && Wide(s)
    ensures o + 2 * n <= |b| && ReadChars(b, o, n) == s[..n]
    decreases n
  {
    hide LE, FromLE;
    if n > 0 {
      StandTogether(b, o, LE(s[0], 2), CharsBytes(s[1..]));
      assert Pow256(2) == 0x1_0000;
      UnsignedBack(b, o, s[0], 2);
      CharsBack(b, o + 2, s[1..], n - 1);
      assert s[..n] == [s[0]] + s[1..][..n - 1];
    }
  }

  lemma {:induction false} NameParts(b: seq<byte>, o: nat, s: seq<nat>)
    requires Stand(b, o, LE(|s|, 4) + CharsBytes(s)) && |s| < TWO_TO_THE_31
    ensures ReadInt32(b, o) == Read(|s|, o + 4) && Stand(b, o + 4, CharsBytes(s))
  {
    hide LE, ReadInt32, CharsBytes, Stand;
    StandBounds(b, o, LE(|s|, 4) + CharsBytes(s));
    StandTogether(b, o, LE(|s|, 4), CharsBytes(s));
    CountBack(b, o, |s|);
  }

  /** A name is read back without its terminator; an empty one cannot be read. */
  lemma {:induction false} NameBack(b: seq<byte>, o: nat, s: seq<nat>)
    requires Stand(b, o, LE(|s|, 4) + CharsBytes(s)) && FitsName(s)
    ensures ReadString(b, o) == if s == [] then Failure else Read(Trimmed(s), o + 4 + 2 * |s|)
  {
    hide LE, ReadInt32, ReadString, CharsBytes, ReadChars, Stand, Wide;
    NameParts(b, o, s);
    if s == [] { EmptyString(b, o); } else { TrimmedBack(b, o, s); }
  }

  lemma {:induction false} TrimmedBack(b: seq<byte>, o: nat, s: seq<nat>)
    requires |s| >= 1 && ReadInt32(b, o) == Read(|s|, o + 4) && Stand(b, o + 4, CharsBytes(s)) && Wide(s)
    ensures ReadString(b, o) == Read(Trimmed(s), o + 4 + 2 * |s|)
  {
    hide ReadInt32, ReadString, CharsBytes, ReadChars, Stand, Wide;
    CharsBack(b, o + 4, s, |s| - 1);
    SizedString(b, o, |s|, s);
  }

  lemma EmptyString(b: seq<byte>, o: nat)
    requires ReadInt32(b, o) == Read(0, o + 4)
    ensures ReadString(b, o) == Failure
  {
    hide ReadInt32, ReadChars;
  }

  lemma SizedString(b: seq<byte>, o: nat, n: nat, s: seq<nat>)
    requires ReadInt32(b, o) == Read(n, o + 4) && n >= 1 && o + 4 + 2 * (n - 1) <= |b|
    requires |s| == n && ReadChars(b, o + 4, n - 1) == s[..n - 1]
    ensures ReadString(b, o) == Read(Trimmed(s), o + 4 + 2 * n)
  {
    hide ReadInt32, ReadChars;
  }

  lemma MethodBack(b: seq<byte>, o: nat, p: (int, MethodInfo))
    requires Stand(b, o, MethodBytes(p.1)) && FitsMethod(p)
    ensures ReadMethod(b, o) == if Named(p.1) then Read(Raw(p.1), o + |MethodBytes(p.1)|) else Failure
  {
    hide LE, FromLE, ReadString, ReadUnsigned, CharsBytes, FitsName, InSigned;
    var m := p.1;
    var x, y := LE(|m.assemblyName|, 4) + CharsBytes(m.assemblyName), LE(|m.moduleName|, 4) + CharsBytes(m.moduleName);
    StandTogether(b, o, LE(m.token, 4) + x, y);
    StandTogether(b, o, LE(m.token, 4), x);
    Powers();
    UnsignedBack(b, o, m.token, 4);
    NameBack(b, o + 4, m.assemblyName);
    NameBack(b, o + 4 + |x|, m.moduleName);
  }

  lemma {:induction false} TableBack(b: seq<byte>, o: nat, table: seq<(int, MethodInfo)>, methods: map<int, RawMethodInfo>)
    requires Stand(b, o, TableBytes(table)) && forall p :: p in table ==> FitsMethod(p)
    requires DistinctKeys(table) && forall p :: p in table ==> p.0 !in methods
    ensures ReadMethods(b, o, |table|, methods) ==
              if AllNamed(table) then Read(AddMethods(table, methods), o + |TableBytes(table)|) else Failure
    decreases |table|
  {
    hide LE, MethodBytes, ReadMethod, ReadInt32, Named, Raw, InSigned;
    if table != [] {
      var p, rest := table[0], table[1..];
      StandBounds(b, o, TableBytes(table));
      StandTogether(b, o, LE(p.0, 4) + MethodBytes(p.1), TableBytes(rest));
      StandTogether(b, o, LE(p.0, 4), MethodBytes(p.1));
      assert FitsMethod(p);
      Int32Back(b, o, p.0);
      MethodBack(b, o + 4, p);
      assert table == [p] + rest;
      if Named(p.1) {
        assert DistinctKeys(rest) by {
          forall i, j | 0 <= i < j < |rest| ensures rest[i].0 != rest[j].0 { assert table[i + 1].0 != table[j + 1].0; }
        }
        forall q | q in rest ensures q.0 !in methods[p.0 := Raw(p.1)] {
          var i :| 0 <= i < |rest| && rest[i] == q;
          assert table[0].0 != table[i + 1].0;
        }
        TableBack(b, o + 4 + |MethodBytes(p.1)|, rest, methods[p.0 := Raw(p.1)]);
        assert AllNamed(table) <==> AllNamed(rest);
      } else {
        assert p in table && !AllNamed(table);
      }
    }
  }

  /** What the decoder makes of a report, if every name has at least its terminating character; otherwise it fails. */
  lemma ReportBack(r: Report)
    requires Fits(r) && DistinctKeys(r.table)
    ensures Decode(ReportBytes(r)) ==
              if AllNamed(r.table) then Read(RawCoverageReports(AddMethods(r.table, map[]), RawEntries(r.entries)), |ReportBytes(r)|)
              else Failure
  {
    hide LE, ReadInt32, FitsMethod, FitsEntry, ReadMethods, ReadReports, TableBytes, EntriesBytes, AddMethods, RawEntries, AllNamed;
    var b := ReportBytes(r);
    var tail := LE(|r.entries|, 4) + EntriesBytes(r.entries);
    var head := LE(|r.table|, 4) + TableBytes(r.table);
    assert Stand(b, 0, head + tail);
    StandTogether(b, 0, head, tail);
    StandTogether(b, 0, LE(|r.table|, 4), TableBytes(r.table));
    StandTogether(b, |head|, LE(|r.entries|, 4), EntriesBytes(r.entries));
    CountBack(b, 0, |r.table|);
    TableBack(b, 4, r.table, map[]);
    CountBack(b, |head|, |r.entries|);
    EntriesBack(b, |head| + 4, r.entries);
  }

  // What a decoded report says

  /** The events in the order of their codes. */
  const EVENTS := [EnterMain, Enter, LeaveMain, Leave, BranchHit, Call, Tailcall, TrackCoverage, StsfldHit]

  lemma EventBack(e: CoverageEvent)
    ensures EventCode(e) < |EVENTS| == 9 && EVENTS[EventCode(e)] == e
  {
  }

  /** What the tool reads of an event says which probe has recorded it: 7 for landing probes, 8 for `stsfld`, 4 for branches,
      5 for calls, and 3 for `throw` and handlers. */
  lemma ProbeCodes(p: InnerProbe, e: CoverageEvent)
    ensures EventCode(e) == EventCode(RecordedAs(p)) ==> e == RecordedAs(p)
    ensures EventCode(RecordedAs(p)) == match p case CoverageProbe => 7 case StsfldProbe => 8 case BranchProbe => 4 case CallProbe => 5 case ThrowProbe => 3
  {
  }

  /** The location is that of the record: the same offset, event, thread and method. */
  predicate ShowsRecord(x: RawCoverageLocation, r: Record) {
    && x.offset == r.offset && 0 <= x.event < 9 && EVENTS[x.event] == r.event
    && x.methodId == r.methodId && x.threadId == r.thread
  }

  predicate ShowsEntry(q: RawCoverageReport, e: Entry) {
    match e
    case Completed(f) =>
      && q.threadId == f.threadId && |q.rawCoverageLocations| == |f.records|
      && (forall j :: 0 <= j < |f.records| ==> ShowsRecord(q.rawCoverageLocations[j], f.records[j]))
    case Empty(threadId) => q == RawCoverageReport(threadId, [])
  }

  predicate ShowsMethod(x: RawMethodInfo, m: MethodInfo) {
    x.methodToken == m.token && ShowsName(x.assemblyName, m.assemblyName) && ShowsName(x.moduleName, m.moduleName)
  }

  /** The decoded name lacks the terminating character. */
  predicate ShowsName(x: seq<nat>, name: seq<nat>) {
    name != [] && x == name[..|name| - 1]
  }

  /** The decoded report has the entries in order, record by record, and the method table. */
  ghost predicate Shows(d: RawCoverageReports, r: Report) {
    && |d.reports| == |r.entries| && (forall i :: 0 <= i < |r.entries| ==> ShowsEntry(d.reports[i], r.entries[i]))
    && (forall id :: id in d.methods <==> InTable(r.table, id))
    && (forall p :: p in r.table ==> p.0 in d.methods && ShowsMethod(d.methods[p.0], p.1))
  }

  lemma {:induction false} RecordsShown(rs: seq<Record>, j: nat)
    requires (forall r :: r in rs ==> FitsRecord(r)) && j < |rs|
    ensures |RawRecords(rs)| == |rs| && ShowsRecord(RawRecords(rs)[j], rs[j])
    decreases |rs|
  {
    EventBack(rs[0].event);
    if |rs| > 1 { RecordsShown(rs[1..], if j == 0 then 0 else j - 1); }
  }

  /** The records of a history are recovered from anywhere in the bytes. */
  lemma RecordsBack(b: seq<byte>, o: nat, rs: seq<Record>)
    requires Stand(b, o, RecordsBytes(rs)) && forall r :: r in rs ==> FitsRecord(r)
    ensures o + 20 * |rs| <= |b| && |ReadLocations(b, o, |rs|)| == |rs|
    ensures forall j :: 0 <= j < |rs| ==> ShowsRecord(ReadLocations(b, o, |rs|)[j], rs[j])
  {
    hide FitsRecord, ShowsRecord, ReadLocation, RecordsBytes;
    LocationsBack(b, o, rs);
    forall j | 0 <= j < |rs| ensures |RawRecords(rs)| == |rs| && ShowsRecord(RawRecords(rs)[j], rs[j]) { RecordsShown(rs, j); }
    if rs == [] { assert ReadLocations(b, o, 0) == []; }
  }

  lemma EntryShown(e: Entry)
    requires FitsEntry(e)
    ensures ShowsEntry(RawEntry(e), e)
  {
    hide FitsRecord, ShowsRecord;
    if e.Completed? {
      forall j | 0 <= j < |e.finished.records|
        ensures |RawRecords(e.finished.records)| == |e.finished.records|
             && ShowsRecord(RawRecords(e.finished.records)[j], e.finished.records[j])
      {
        RecordsShown(e.finished.records, j);
      }
    }
  }

  lemma {:induction false} EntriesShown(es: seq<Entry>)
    requires forall e :: e in es ==> FitsEntry(e)
    ensures |RawEntries(es)| == |es| && forall i :: 0 <= i < |es| ==> ShowsEntry(RawEntries(es)[i], es[i])
  {
    hide FitsEntry, ShowsEntry, RawEntry;
    if es != [] {
      EntryShown(es[0]);
      EntriesShown(es[1..]);
    }
  }

  lemma {:induction false} MethodsShown(table: seq<(int, MethodInfo)>, methods: map<int, RawMethodInfo>, p: (int, MethodInfo))
    requires AllNamed(table) && DistinctKeys(table) && p in table
    ensures p.0 in AddMethods(table, methods) && AddMethods(table, methods)[p.0] == Raw(p.1)
    decreases |table|
  {
    var q, rest := table[0], table[1..];
    assert table == [q] + rest;
    assert DistinctKeys(rest) by {
      forall i, j | 0 <= i < j < |rest| ensures rest[i].0 != rest[j].0 { assert table[i + 1].0 != table[j + 1].0; }
    }
    if p in rest {
      MethodsShown(rest, methods[q.0 := Raw(q.1)], p);
    } else {
      forall r | r in rest ensures r.0 != p.0 {
        var i :| 0 <= i < |rest| && rest[i] == r;
        assert table[0].0 != table[i + 1].0;
      }
      MethodKept(rest, methods[q.0 := Raw(q.1)], p.0);
    }
  }

  lemma {:induction false} MethodKept(table: seq<(int, MethodInfo)>, methods: map<int, RawMethodInfo>, id: int)
    requires AllNamed(table) && id in methods && forall r :: r in table ==> r.0 != id
    ensures id in AddMethods(table, methods) && AddMethods(table, methods)[id] == methods[id]
    decreases |table|
  {
    if table != [] {
      assert table[0] in table;
      MethodKept(table[1..], methods[table[0].0 := Raw(table[0].1)], id);
    }
  }

  /** The tool's decoder recovers all methods and all records of a report, exactly if no name lacks its terminating
      character. */
  lemma ReportDecodes(r: Report)
    requires Fits(r) && DistinctKeys(r.table)
    ensures Decode(ReportBytes(r)).Read? <==> forall p :: p in r.table ==> p.1.assemblyName != [] && p.1.moduleName != []
    ensures Decode(ReportBytes(r)).Read? ==> Decode(ReportBytes(r)).next == |ReportBytes(r)| && Shows(Decode(ReportBytes(r)).value, r)
  {
    hide Decode, ReportBytes, AddMethods, FitsEntry, FitsMethod, RawEntries, ShowsEntry;
    ReportBack(r);
    if AllNamed(r.table) {
      EntriesShown(r.entries);
      forall id ensures id in AddMethods(r.table, map[]) <==> InTable(r.table, id) { AddMethodsKeys(r.table, map[], id); }
      forall p | p in r.table ensures p.0 in AddMethods(r.table, map[]) && ShowsMethod(AddMethods(r.table, map[])[p.0], p.1) {
        MethodsShown(r.table, map[], p);
      }
    }
  }

  lemma SmallNumber(v: int)
    requires 0 <= v < 256
    ensures LE(v, 2) == [v, 0] && LE(v, 4) == [v, 0, 0, 0] && LE(v, 8) == [v, 0, 0, 0, 0, 0, 0, 0]
  {
    assert LE(0, 1) == [0] && LE(0, 2) == [0, 0] && LE(0, 3) == [0, 0, 0] && LE(0, 4) == [0, 0, 0, 0];
    assert LE(0, 5) == [0] + LE(0, 4) && LE(0, 6) == [0] + LE(0, 5) && LE(0, 7) == [0] + LE(0, 6);
    assert v / 256 == 0;
  }

  /** The bytes of a record: offset, event, method and thread. */
  lemma SmallRecord()
    ensures RecordBytes(Record(10, LeaveMain, 11, 12)) == [10, 0, 0, 0, 2, 0, 0, 0, 12, 0, 0, 0, 11, 0, 0, 0, 0, 0, 0, 0]
  {
    hide LE;
    SmallNumber(10);
    SmallNumber(11);
    SmallNumber(12);
    SmallNumber(2);
  }

  /** The bytes of a method: token, and the lengths and characters of the names of its assembly and its module. */
  lemma SmallMethod()
    ensures MethodBytes(MethodInfo(7, [65, 0], [0])) == [7, 0, 0, 0, 2, 0, 0, 0, 65, 0, 0, 0, 1, 0, 0, 0, 0, 0]
  {
    hide LE;
    SmallNumber(7);
    SmallNumber(2);
    SmallNumber(65);
    SmallNumber(0);
    SmallNumber(1);
    assert CharsBytes([0]) == [0, 0] + CharsBytes([]);
    assert CharsBytes([65, 0]) == [65, 0] + CharsBytes([0]);
  }

  /** The bytes of a report: the number of methods and the methods, each behind its number; the number of entries and the
      entries, which start with the number of the thread and say whether they are empty. */
  lemma SmallReport()
    ensures var m, r := MethodInfo(7, [65, 0], [0]), Record(10, LeaveMain, 11, 12);
            ReportBytes(Report([(5, m)], [Completed(Finished(3, [r])), Empty(4)])) ==
              [1, 0, 0, 0] + ([5, 0, 0, 0] + MethodBytes(m))
              + ([2, 0, 0, 0] + ([3, 0, 0, 0, 0, 0, 0, 0, 1, 0, 0, 0] + RecordBytes(r) + [4, 0, 0, 0, 1, 0, 0, 0]))
  {
    hide LE, MethodBytes, RecordBytes;
    var m, r := MethodInfo(7, [65, 0], [0]), Record(10, LeaveMain, 11, 12);
    SmallNumber(0);
    SmallNumber(1);
    SmallNumber(2);
    SmallNumber(3);
    SmallNumber(4);
    SmallNumber(5);
    assert TableBytes([(5, m)]) == [5, 0, 0, 0] + MethodBytes(m) + TableBytes([]);
    assert RecordsBytes([r]) == RecordBytes(r) + RecordsBytes([]);
    assert HistoryBytes([r]) == [1, 0, 0, 0] + RecordBytes(r);
    assert EntryBytes(Completed(Finished(3, [r]))) == [3, 0, 0, 0, 0, 0, 0, 0, 1, 0, 0, 0] + RecordBytes(r);
    assert EntryBytes(Empty(4)) == [4, 0, 0, 0, 1, 0, 0, 0];
    assert [Completed(Finished(3, [r])), Empty(4)][1..] == [Empty(4)] && [Empty(4)][1..] == [];
    assert EntriesBytes([Empty(4)]) == EntryBytes(Empty(4)) + EntriesBytes([]);
  }

  /** A report that cannot be decoded: its only method has no module name, not even a terminating character. */
  lemma NamelessFails()
    ensures Decode(ReportBytes(Report([(0, MethodInfo(1, [0], []))], []))) == Failure
  {
    hide Decode, ReportBytes;
    var p := (0, MethodInfo(1, [0], []));
    assert FitsMethod(p) by { Powers(); }
    assert p in [p] && !Named(p.1);
    ReportDecodes(Report([p], []));
  }

  // The decoded report can be used

  /** Every location names a method of the decoded table. */
  predicate Resolves(d: RawCoverageReports) {
    forall r, x :: r in d.reports && x in r.rawCoverageLocations ==> x.methodId in d.methods
  }

  lemma {:induction false} AddMethodsKeys(table: seq<(int, MethodInfo)>, methods: map<int, RawMethodInfo>, id: int)
    requires AllNamed(table)
    ensures id in AddMethods(table, methods) <==> id in methods || InTable(table, id)
    decreases |table|
  {
    if table != [] {
      AddMethodsKeys(table[1..], methods[table[0].0 := Raw(table[0].1)], id);
      assert table == [table[0]] + table[1..];
      assert InTable(table, id) <==> table[0].0 == id || InTable(table[1..], id) by {
        if InTable(table[1..], id) { var p :| p in table[1..] && p.0 == id; assert p in table; }
        if table[0].0 == id { assert table[0] in table; }
      }
    }
  }

  lemma {:induction false} RawRecordsMethods(rs: seq<Record>, x: RawCoverageLocation)
    requires (forall r :: r in rs ==> FitsRecord(r)) && x in RawRecords(rs)
    ensures x.methodId in MethodsOf(rs)
  {
    if x != RawRecord(rs[0]) {
      RawRecordsMethods(rs[1..], x);
      var r :| r in rs[1..] && r.methodId == x.methodId;
      assert r in rs;
    } else {
      assert rs[0] in rs;
    }
  }

  lemma {:induction false} RawEntryFrom(es: seq<Entry>, r: RawCoverageReport) returns (e: Entry)
    requires (forall e :: e in es ==> FitsEntry(e)) && r in RawEntries(es)
    ensures e in es && r == RawEntry(e)
  {
    if r == RawEntry(es[0]) { e := es[0]; } else { e := RawEntryFrom(es[1..], r); }
  }

  /** A self-contained report can be decoded, and every location of the decoded report finds its method. */
  lemma ReportUsable(r: Report)
    requires Fits(r) && DistinctKeys(r.table) && AllNamed(r.table) && SelfContained(r)
    ensures Decode(ReportBytes(r)).Read? && Resolves(Decode(ReportBytes(r)).value)
    ensures Decode(ReportBytes(r)).next == |ReportBytes(r)|
  {
    hide Decode, ReportBytes, AddMethods, FitsEntry, FitsMethod, AllNamed, RawEntries, RawEntry;
    ReportBack(r);
    var d := RawCoverageReports(AddMethods(r.table, map[]), RawEntries(r.entries));
    forall q, x | q in d.reports && x in q.rawCoverageLocations ensures x.methodId in d.methods {
      var e := RawEntryFrom(r.entries, q);
      LocationFrom(e, x);
      AddMethodsKeys(r.table, map[], x.methodId);
    }
  }

  lemma LocationFrom(e: Entry, x: RawCoverageLocation)
    requires FitsEntry(e) && x in RawEntry(e).rawCoverageLocations
    ensures e.Completed? && x.methodId in MethodsOf(e.finished.records)
  {
    if e.Completed? { RawRecordsMethods(e.finished.records, x); }
  }

  // Whole runs, as the tool sees them

  /** The decoded histories that have records. */
  function Histories(qs: seq<RawCoverageReport>): seq<RawCoverageReport> {
    if qs == [] then [] else (if qs[0].rawCoverageLocations != [] then [qs[0]] else []) + Histories(qs[1..])
  }

  /** The histories that the tool finds in a sequence of reports. */
  function DecodedHistories(rs: seq<Report>): seq<RawCoverageReport> {
    if rs == [] then []
    else (match Decode(ReportBytes(rs[0])) case Read(d, _) => Histories(d.reports) case Failure => []) + DecodedHistories(rs[1..])
  }

  predicate ShowsAll(qs: seq<RawCoverageReport>, fs: seq<Finished>) {
    |qs| == |fs| && forall i :: 0 <= i < |qs| ==> ShowsEntry(qs[i], Completed(fs[i]))
  }

  lemma ShowsConcat(qs: seq<RawCoverageReport>, qs': seq<RawCoverageReport>, fs: seq<Finished>, fs': seq<Finished>)
    requires ShowsAll(qs, fs) && ShowsAll(qs', fs')
    ensures ShowsAll(qs + qs', fs + fs')
  {
    hide ShowsEntry;
  }

  lemma {:induction false} HistoriesShow(qs: seq<RawCoverageReport>, es: seq<Entry>)
    requires |qs| == |es| && (forall i :: 0 <= i < |es| ==> ShowsEntry(qs[i], es[i])) && forall f :: f in CompletedIn(es) ==> f.records != []
    ensures ShowsAll(Histories(qs), CompletedIn(es))
  {
    hide ShowsRecord;
    if es != [] {
      assert ShowsEntry(qs[0], es[0]);
      forall f | f in CompletedIn(es[1..]) ensures f.records != [] { assert f in CompletedIn(es); }
      HistoriesShow(qs[1..], es[1..]);
      match es[0]
      case Completed(f) =>
        assert f in CompletedIn(es);
        ShowsConcat([qs[0]], Histories(qs[1..]), [f], CompletedIn(es[1..]));
      case Empty(_) =>
        assert [] + Histories(qs[1..]) == Histories(qs[1..]);
    }
  }

  predicate Decodable(r: Report) {
    Fits(r) && AllNamed(r.table)
  }

  lemma {:induction false} DecodedShow(rs: seq<Report>)
    requires forall r :: r in rs ==> Decodable(r) && DistinctKeys(r.table)
    requires forall f :: f in CompletedInAll(rs) ==> f.records != []
    ensures ShowsAll(DecodedHistories(rs), CompletedInAll(rs))
  {
    hide Decode, ReportBytes, Fits, DistinctKeys, ShowsAll, Histories, CompletedIn;
    if rs == [] {
      assert ShowsAll([], []) by { NothingShown(); }
    } else {
      var r := rs[0];
      assert r in rs && DistinctKeys(r.table) && Decodable(r);
      ReportDecodes(r);
      forall f | f in CompletedIn(r.entries) || f in CompletedInAll(rs[1..]) ensures f.records != [] { assert f in CompletedInAll(rs); }
      HistoriesShow(Decode(ReportBytes(r)).value.reports, r.entries);
      DecodedShow(rs[1..]);
      ShowsConcat(Histories(Decode(ReportBytes(r)).value.reports), DecodedHistories(rs[1..]), CompletedIn(r.entries), CompletedInAll(rs[1..]));
    }
  }

  lemma NothingShown()
    ensures ShowsAll([], [])
  {
  }

  /** From the start of the profiler on, the histories that the tool decodes from the bytes of all reports, followed by those
      that are still kept, are the finished invocations in order, record by record. */
  lemma RunDecodes(cfg: Settings, es: seq<Event>)
    requires Run(cfg, START, es).Outcome? && forall r :: r in Run(cfg, START, es).reports ==> Decodable(r)
    ensures var o := Run(cfg, START, es); var qs, fs := DecodedHistories(o.reports), Values(o.finished);
            && |qs| <= |fs| && fs[|qs|..] == CompletedIn(o.state.entries)
            && forall i :: 0 <= i < |qs| ==> ShowsEntry(qs[i], Completed(fs[i]))
  {
    hide Run, DecodedHistories, CompletedInAll, CompletedIn, Decodable, DistinctKeys, ShowsEntry, OwnRecords;
    var o := Run(cfg, START, es);
    assert Agree(START);
    FinishedHaveRecords(cfg, START, es);
    EveryInvocationReportedOnce(cfg, START, es);
    RunMethods(cfg, START, es);
    assert CompletedIn(START.entries) == [] by { NoneCompleted(); }
    assert [] + Values(o.finished) == Values(o.finished);
    forall f | f in CompletedInAll(o.reports) ensures f.records != [] {
      assert f in CompletedInAll(o.reports) + CompletedIn(o.state.entries);
      var i :| 0 <= i < |Values(o.finished)| && Values(o.finished)[i] == f;
      assert o.finished[i] in o.finished;
      SomeRecords(o.finished[i].0, f);
    }
    DecodedShow(o.reports);
  }

  lemma NoneCompleted()
    ensures CompletedIn([]) == []
  {
  }

  lemma SomeRecords(t: Thread, f: Finished)
    requires OwnRecords(t, f.records)
    ensures f.records != []
  {
  }
}
