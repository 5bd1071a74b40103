/** What branches do, by the numbers of opcodes: the same in a method and in its rewritten form. */
module Branching {
  import opened Opcodes
  import opened Listings
  import opened Machine
  import opened Codec
  import opened NumberedRuns
  import opened Correspondence

  datatype Comparison = Equal | GreaterEqual | Greater | LessEqual | Less | NotEqualUn | GreaterEqualUn | GreaterUn | LessEqualUn | LessUn

  datatype Condition = Always | IfZero | IfNotZero | If(comparison: Comparison)

  /** When the branch with the opcode is taken (section III.3 of ECMA-335). */
  function ConditionOf(op: int): Condition
    requires 0x2B <= op <= 0x44
  {
    match op
    case 0x2B => Always case 0x2C => IfZero case 0x2D => IfNotZero
    case 0x2E => If(Equal) case 0x2F => If(GreaterEqual) case 0x30 => If(Greater) case 0x31 => If(LessEqual) case 0x32 => If(Less)
    case 0x33 => If(NotEqualUn) case 0x34 => If(GreaterEqualUn) case 0x35 => If(GreaterUn) case 0x36 => If(LessEqualUn) case 0x37 => If(LessUn)
    case 0x38 => Always case 0x39 => IfZero case 0x3A => IfNotZero
    case 0x3B => If(Equal) case 0x3C => If(GreaterEqual) case 0x3D => If(Greater) case 0x3E => If(LessEqual) case 0x3F => If(Less)
    case 0x40 => If(NotEqualUn) case 0x41 => If(GreaterEqualUn) case 0x42 => If(GreaterUn) case 0x43 => If(LessEqualUn) case _ => If(LessUn)
  }

  /** A runtime: how it compares values, what leaving a try block does, and what all other instructions do. */
  datatype Runtime<!R> = Runtime(
    isZero: Slot -> bool,
    holds: (Comparison, Slot, Slot) -> bool,
    leave: (nat, Regions, Core<nat, R>) -> Outcome<nat, R>,
    other: (Fetched<nat>, Regions, Core<nat, R>) -> Outcome<nat, R>)

  function Popped<R>(core: Core<nat, R>, n: nat): Core<nat, R>
    requires n <= |core.stack|
  {
    core.(stack := core.stack[..|core.stack| - n])
  }

  function Branch<R>(rt: Runtime<R>, condition: Condition, target: nat, core: Core<nat, R>): Outcome<nat, R> {
    var n := |core.stack|;
    match condition
    case Always => Goto(target, core)
    case IfZero => if n < 1 then Halt(core) else if rt.isZero(core.stack[n - 1]) then Goto(target, Popped(core, 1)) else Fall(Popped(core, 1))
    case IfNotZero => if n < 1 then Halt(core) else if rt.isZero(core.stack[n - 1]) then Fall(Popped(core, 1)) else Goto(target, Popped(core, 1))
    case If(comparison) =>
      if n < 2 then Halt(core)
      else if rt.holds(comparison, core.stack[n - 2], core.stack[n - 1]) then Goto(target, Popped(core, 2)) else Fall(Popped(core, 2))
  }

  predicate IsBranch(op: int) {
    0x2B <= op <= 0x44 || op == 0xDD || op == 0xDE
  }

  /** What the runtime does for an instruction, whatever prefixes wait. */
  function Execution<R>(rt: Runtime<R>, f: Fetched<nat>, regions: Regions, core: Core<nat, R>): Outcome<nat, R> {
    if !IsBranch(f.instr.op) then rt.other(f, regions, core)
    else if f.instr.arg.Bits? then Halt(core)
    else if f.instr.op <= 0x44 then Branch(rt, ConditionOf(f.instr.op), f.instr.arg.node, core)
    else rt.leave(f.instr.arg.node, regions, core)
  }

  function OnRuntime<R>(probes: map<int, nat>, entries: set<nat>, rt: Runtime<R>): Machine<nat, R> {
    Machine(probes, entries, (f, regions, core) => Execution(rt, f, regions, core))
  }

  /** Whatever the runtime, the length of a branch makes no difference. */
  lemma RuntimeIsLengthBlind<R(!new)>(probes: map<int, nat>, entries: set<nat>, rt: Runtime<R>)
    ensures LengthBlind(OnRuntime(probes, entries, rt))
  {
    hide Branch;
    forall f, r, core ensures Execution(rt, Longer(f), r, core) == Execution(rt, f, r, core) { SameCondition(f.instr.op); }
  }

  lemma SameCondition(op: int)
    ensures 0x2B <= op <= 0x37 ==> 0x38 <= Widen(op) <= 0x44 && ConditionOf(Widen(op)) == ConditionOf(op)
    ensures op == 0xDE ==> Widen(op) == 0xDD
    ensures !(0x2B <= op <= 0x37) && op != 0xDE ==> Widen(op) == op
  {
  }

  /** Both runtimes are the same, but for the numbers of instructions: `k` has become `at[k]`. */
  ghost predicate SameRuntime<R(!new)>(m0: Machine<nat, R>, rt0: Runtime<R>, m2: Machine<nat, R>, rt2: Runtime<R>, at: seq<nat>) {
    && rt2.isZero == rt0.isZero && rt2.holds == rt0.holds && m2.entries == Entries(m0.entries, at)
    && (forall n, r, core :: 0 <= n < |at| ==> MovedOutcome(m0, m2, at, rt0.leave(n, r, core), rt2.leave(at[n], r, core)))
    && (forall f, g, r, core :: MovedFetched(at, f, g) && !IsBranch(f.instr.op) ==>
          MovedOutcome(m0, m2, at, rt0.other(f, r, core), rt2.other(g, r, core)))
  }

  /** On the same runtime, a method and its rewritten form have the same meaning. */
  lemma RuntimeCorresponds<R(!new)>(probes: map<int, nat>, e0: set<nat>, rt0: Runtime<R>, e2: set<nat>, rt2: Runtime<R>, at: seq<nat>)
    requires Distinct(at) && SameRuntime(OnRuntime(probes, e0, rt0), rt0, OnRuntime(probes, e2, rt2), rt2, at)
    ensures Corresponds(OnRuntime(probes, e0, rt0), OnRuntime(probes, e2, rt2), at)
  {
    hide Branch, Distinct;
    var m0, m2 := OnRuntime(probes, e0, rt0), OnRuntime(probes, e2, rt2);
    forall f, g, r, core | MovedFetched(at, f, g) ensures MovedOutcome(m0, m2, at, m0.sem(f, r, core), m2.sem(g, r, core)) {
      SameCondition(f.instr.op);
      if 0x2B <= f.instr.op <= 0x44 && f.instr.arg.Target? {
        BranchMoves(m0, rt0, m2, rt2, at, ConditionOf(f.instr.op), f.instr.arg.node, core);
      }
    }
  }

  lemma BranchMoves<R>(m0: Machine<nat, R>, rt0: Runtime<R>, m2: Machine<nat, R>, rt2: Runtime<R>, at: seq<nat>, condition: Condition,
                       n: nat, core: Core<nat, R>)
    requires Distinct(at) && n < |at| && rt2.isZero == rt0.isZero && rt2.holds == rt0.holds && m2.entries == Entries(m0.entries, at)
    ensures MovedOutcome(m0, m2, at, Branch(rt0, condition, n, core), Branch(rt2, condition, at[n], core))
  {
    if at[n] in m2.entries {
      var k: nat :| k < |at| && k in m0.entries && at[k] == at[n];
      assert k == n;
    }
  }
}
