/** The execution of an instruction list.  What an ordinary instruction does is a parameter, so that every result
    holds for every meaning of the IL instructions; only the instructions of an injected probe, the prefixes and
    the arms of a jump table have a fixed meaning. */
module Machine {
  import opened Opcodes
  import opened Listings

  datatype Slot = Int32(bits: int) | Int64(bits: int) | Other(id: int)

  /** The state of a method: its evaluation stack, the prefixes waiting for their instruction, and the rest. */
  datatype Core<N, R> = Core(stack: seq<Slot>, pending: seq<Instr<N>>, rest: R)

  /** A control transfer goes to the next instruction or to a node: a branch target, the entry of a handler or
      filter, or the place where execution resumes after one. */
  datatype Outcome<N, R> = Fall(core: Core<N, R>) | Goto(node: N, core: Core<N, R>) | Halt(core: Core<N, R>)

  /** The call of a probe: its address and the arguments it found on the stack. */
  datatype Event = Event(probe: int, args: seq<int>)

  datatype Effect<N, R> = Effect(outcome: Outcome<N, R>, events: seq<Event>)

  /** An instruction together with the targets of its jump table. */
  datatype Fetched<N> = Fetched(instr: Instr<N>, arms: seq<N>)

  /** `probes` gives the number of arguments of every probe address.  `entries` are the nodes control may be
      transferred to.  `sem` is the meaning of the instructions: it sees the instruction, the exception regions
      around it and the state, so exception dispatch and `leave` are part of it. */
  datatype Machine<!N, !R> = Machine(
    probes: map<int, nat>,
    entries: set<N>,
    sem: (Fetched<N>, Regions, Core<N, R>) -> Outcome<N, R>)

  datatype Config<N, R> =
    | Running(pc: nat, core: Core<N, R>, log: seq<Event>)
    | Stopped(core: Core<N, R>, log: seq<Event>)

  function Fetch<N(==)>(l: Listing<N>, p: nat): Fetched<N>
    requires WellFormed(l) && p < |l.order|
  {
    Fetched(l.code[l.order[p]], Arms(l, p))
  }

  /** The instruction calls a probe: the top of the stack is the probe's address, its arguments lie below. */
  predicate CallsProbe<N, R>(m: Machine<N, R>, op: int, core: Core<N, R>) {
    var top := |core.stack| - 1;
    && op == CEE_CALLI && core.pending == []
    && top >= 0 && core.stack[top].Int64? && core.stack[top].bits in m.probes
    && m.probes[core.stack[top].bits] <= top
    && (forall i :: top - m.probes[core.stack[top].bits] <= i < top ==> core.stack[i].Int32?)
  }

  function ProbeEvent<N, R>(m: Machine<N, R>, core: Core<N, R>): Event
    requires CallsProbe(m, CEE_CALLI, core)
  {
    var top := |core.stack| - 1;
    var n := m.probes[core.stack[top].bits];
    Event(core.stack[top].bits, seq(n, i requires 0 <= i < n => core.stack[top - n + i].bits))
  }

  /** Instructions whose meaning is fixed: they push a constant or do nothing. */
  predicate IsPlain(op: int) {
    op == CEE_NOP || op == CEE_LDC_I4 || op == CEE_LDC_I4_0 || op == CEE_LDC_I8 || op == CEE_SWITCH_ARG
  }

  function Pushed<N>(i: Instr<N>): seq<Slot> {
    if i.op == CEE_LDC_I4_0 then [Int32(0)]
    else if i.op == CEE_LDC_I4 && i.arg.Bits? then [Int32(i.arg.value)]
    else if i.op == CEE_LDC_I8 && i.arg.Bits? then [Int64(i.arg.value)]
    else []
  }

  /** A prefix is consumed by the instruction after it; a plain instruction under a prefix is a fault. */
  function Execute<N, R>(m: Machine<N, R>, f: Fetched<N>, regions: Regions, core: Core<N, R>): Effect<N, R> {
    if IsPrefix(f.instr.op) then Effect(Fall(core.(pending := core.pending + [f.instr])), [])
    else if IsPlain(f.instr.op) then
      if core.pending == [] then Effect(Fall(core.(stack := core.stack + Pushed(f.instr))), []) else Effect(Halt(core), [])
    else if CallsProbe(m, f.instr.op, core) then
      var e := ProbeEvent(m, core);
      Effect(Fall(core.(stack := core.stack[..|core.stack| - 1 - |e.args|])), [e])
    else
      var o := m.sem(f, regions, core);
      Effect(match o
             case Fall(c) => Fall(c.(pending := []))
             case Goto(n, c) => Goto(n, c.(pending := []))
             case Halt(c) => Halt(c.(pending := [])),
             [])
  }

  function Perform<N(==), R>(m: Machine<N, R>, l: Listing<N>, p: nat, core: Core<N, R>): Effect<N, R>
    requires WellFormed(l) && p < |l.order|
  {
    Execute(m, Fetch(l, p), RegionsAt(l, p), core)
  }

  function Step<N(==), R>(m: Machine<N, R>, l: Listing<N>, c: Config<N, R>): Config<N, R>
    requires WellFormed(l)
  {
    if c.Stopped? then c
    else if c.pc >= |l.order| then Stopped(c.core, c.log)
    else
      var e := Perform(m, l, c.pc, c.core);
      match e.outcome
      case Fall(core) => Running(c.pc + 1, core, c.log + e.events)
      case Goto(n, core) =>
        if n in m.entries && n in l.order then Running(Pos(l.order, n), core, c.log + e.events)
        else Stopped(core, c.log + e.events)
      case Halt(core) => Stopped(core, c.log + e.events)
  }

  function Run<N(==), R>(m: Machine<N, R>, l: Listing<N>, c: Config<N, R>, n: nat): Config<N, R>
    requires WellFormed(l)
    decreases n
  {
    if n == 0 then c else Run(m, l, Step(m, l, c), n - 1)
  }

  /** A method starts at its first instruction with an empty evaluation stack. */
  function Entry<N, R>(rest: R): Config<N, R> {
    Running(0, Core([], [], rest), [])
  }

  /** What an observer sees of a run: the instructions executed, named by the node in `labels`, and the state each
      of them starts in.  Nodes without a label are invisible. */
  datatype Visit<N, R> = Visit(node: N, core: Core<N, R>)

  function Seen<N(==), R>(l: Listing<N>, c: Config<N, R>, labels: map<N, N>): seq<Visit<N, R>> {
    if c.Running? && c.pc < |l.order| && l.order[c.pc] in labels
    then [Visit(labels[l.order[c.pc]], c.core)] else []
  }

  function Trace<N(==), R>(m: Machine<N, R>, l: Listing<N>, c: Config<N, R>, n: nat, labels: map<N, N>): seq<Visit<N, R>>
    requires WellFormed(l)
    decreases n
  {
    if n == 0 then [] else Seen(l, c, labels) + Trace(m, l, Step(m, l, c), n - 1, labels)
  }

  /** Throughout `n` steps the evaluation stack stays within `depth` slots. */
  predicate Within<N(==), R>(m: Machine<N, R>, l: Listing<N>, c: Config<N, R>, n: nat, depth: nat)
    requires WellFormed(l)
    decreases n
  {
    |c.core.stack| <= depth && (n > 0 ==> Within(m, l, Step(m, l, c), n - 1, depth))
  }

  /** Running `a` steps and then `b` steps. */
  lemma {:induction false} RunAdd<N, R>(m: Machine<N, R>, l: Listing<N>, c: Config<N, R>, a: nat, b: nat, labels: map<N, N>, depth: nat)
    requires WellFormed(l)
    ensures Run(m, l, Run(m, l, c, a), b) == Run(m, l, c, a + b)
    ensures Trace(m, l, c, a + b, labels) == Trace(m, l, c, a, labels) + Trace(m, l, Run(m, l, c, a), b, labels)
    ensures Within(m, l, c, a + b, depth) <==> Within(m, l, c, a, depth) && Within(m, l, Run(m, l, c, a), b, depth)
    decreases a
  {
    if a != 0 {
      RunAdd(m, l, Step(m, l, c), a - 1, b, labels, depth);
    }
  }
}
