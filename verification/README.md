# Verified model of the coverage instrumenter

The project models five parts of a .NET test executor with a coverage profiler.

* **The IL rewriter.** A method body is decoded into a circular doubly linked list, coverage probes are spliced around the
  instructions that end basic blocks, and the list is encoded again with branch relaxation, header and exception clauses.
  The list, its nodes and the offset table are objects and arrays that are updated in place, as in the program.  Runs of a
  method are runs of an abstract stack machine: what an ordinary instruction does is a parameter, what probe sequences,
  branches and fall-through do is fixed.  The main results go from the bytes that are read to the bytes that are written
  (`WholeMethod`, `BytesToBytes`, `Reporting`, `WrittenCode`): an observer of the original instructions cannot tell the two methods apart; outside tail
  calls whatever ends a block is reported under its original offset, tail calls are reported before they start, and nothing
  is reported that was not executed; exception regions are kept, and the depth in the header is known exactly.
* **The lock-ranking tool.** Types, groups and rules are mutable objects; joining, cycle search, normalisation and ranking
  are the tool's own loops, specified by reachability in a graph and its quotient.
* **The object comparer.** Recursion over a finite, possibly cyclic heap with a set of pairs already seen, against the
  greatest bisimulation.
* **The coverage protocol.** `CoverageProtocol` gives the reaction of one thread to one callback, `CoverageRuns` runs of all
  threads, `CoverageReports` the bytes of a report and the decoder of the coverage tool, and `Trackers` the classes with
  their per-thread maps, each of whose methods makes exactly the prescribed step.
* **Compressed signature integers**, on 32-bit vectors.

How the files build on each other: `Opcodes`, `Listings`, `Machine`, `Blocks`, `Simulation`, `Growth`, `Insertion` (values)
and `InstructionList`, `CoverageProbes`, `Planning`, `Scanning`, `Weaving`, `RewriteIL` (the list in memory) make up the
rewriting; `Bytes`, `Codec`, `Relaxation`, `Importing`, `Exporting`, `ExceptionClauses`, `BodyFormat`, `Reassembly`,
`MethodExport` the two ends; `Accounting` what the probes cost; `Numbering`, `NumberedRuns`, `Correspondence`, `WrittenBody`
relate the list to what the bytes at either end denote; `Reporting`, `WrittenCode` and `Branching` state what the written
method does by the numbers of opcodes, `CodeLayout` and `BodyLayout` where the bytes of instructions, headers and clauses
stand, and `OpcodeTable` has the table of opcodes; `Digraph`, `CrstTypes`, `CrstValidation`, `CrstLevels` the ranking tool.

What the proofs take for granted about a method to be instrumented is `MethodBody.ValidBody`: targets and clause boundaries
are instructions; no branch and no start of a handler leads past a prefix or into a switch table, and these are complete;
branches, `ret`, `throw`, `rethrow`, `endfinally`, `endfilter` and `tail.` have no prefix in front of them, and a `stsfld`
has at most one, because the probe would come between two; `tail.` is followed by a call and `ret`, and no handler ends with
it.  `WholeMethod.Proper` states it of the bytes, together with clauses that cover at least one instruction.
`BytesToBytes.Fitting` asks that the code is not empty and shorter than 2^31, that the method id fits 32 bits and addresses
of probes 64.  A probe takes two or three integers and returns nothing.

Where the code and what is said about it differ, the model follows the code:

* The rerouting of branches to the return of a tail call is never reached (`RewriteIL.RerouteUnreachable`).  So a return
  that a branch reaches past its tail call goes unreported (`Instrumentation.JumpedReturnUnreported` has such a method);
  `Instrumentation.TailReturnReported` says exactly when these returns are reported.
* The ranking's exception that is called pure paranoia does occur, if the only rules of the waiting types lead to unordered
  types (`CrstLevels.BlockedByUnordered`); `CrstLevels.Process` says exactly when.
* The check for grouped unordered types indexes an empty list when they have no rules; `ValidateCrsts` then ends in
  `Crashed` (`CrstValidation.UnorderedWithItself`), and the separate check that follows can never fail.
* The coverage tool's decoder cannot read a name of length 0 (`CoverageReports.ReportDecodes`, `NamelessFails`).
* A tail call takes a main frame away without looking whether it was the last.  If the callee is no main method, the
  invocation is not finished, and its records come with those of the next invocation of the thread
  (`CoverageProtocol.InvocationFinishes`, `TailCallMerges`).
* The trackers remember one unwound function per thread, so nested unwinds end in a failed assertion unless the end of the
  inner one finishes the invocation (`CoverageProtocol.NestedUnwindsFail` has the exact condition, `NestedUnwindsReached` a
  run from the start).

## Model

| member | source | states |
|---|---|---|
| WholeMethod.RewriteMethod | TestExecutor.CoverageInstrumenter/profiler/ILRewriter.cpp:1251-1475 | From the decoded body to the written bytes: fails exactly if the body cannot be imported, and writes nothing exactly if the number of instructions of the rewritten method, which the body determines, does not fit; otherwise the list is the one the bytes denote, every original instruction has grown into a block that behaves like it, carries the probes demanded of it and no others, and the bytes written decode to the relaxed code, header and clauses of that list |
| BytesToBytes.BytesPreserveMeaning | TestExecutor.CoverageInstrumenter/profiler/ILRewriter.cpp:1251-1475 | The bytes written are read again as a method that, on a machine that gives moved and widened instructions the same meaning, passes through the same original instructions in the same states as the method read does, for every run and every number of steps, and calls exactly the enter probe and the probes of what it executes; conversely, whatever an observer sees of it is a run of the method read |
| BytesToBytes.MeaningCarriesOver | TestExecutor.CoverageInstrumenter/profiler/ILRewriter.cpp:1251-1475 | Such a machine exists for every meaning of the instructions to which the length of branches makes no difference |
| BytesToBytes.OriginsAre | TestExecutor.CoverageInstrumenter/profiler/ILRewriter.cpp:1143-1193 | What is observed in the written method are the surviving instructions, one for each original instruction and each labelled with its number |
| Reporting.EveryEndReported | TestExecutor.CoverageInstrumenter/profiler/ILRewriter.cpp:1251-1475 | By the numbers of opcodes and the offsets of the bytes read, in every run of the method written: first comes the call of the enter probe, and then, for every instruction that the method read executes, each probe that is due for it is called with its offset: branch, switch and leave, ret, throw and rethrow, endfinally and endfilter, stsfld (in front of its prefix), call, calli, callvirt and newobj once they complete, both offsets of a tail call, the first instruction of a handler, and what falls through into a branch target |
| Reporting.NothingElseReported | TestExecutor.CoverageInstrumenter/profiler/ILRewriter.cpp:1251-1475 | The converse: every call of a probe in any run of the method written is the enter probe, or one that the method read makes itself, or was due, to that very probe and under that offset, for an instruction that this has executed, and completed if the probe stands behind it |
| WrittenCode.WrittenOpcodes | TestExecutor.CoverageInstrumenter/profiler/ILRewriter.cpp:810-820 | Every opcode read is written again, or is a short branch 0x2B to 0x37 and written as the one larger by 13, or is 0xDE and written as 0xDD; no probe stands between a prefix and its instruction |
| WrittenCode.RelaxedOpcodes | TestExecutor.CoverageInstrumenter/profiler/ILRewriter.cpp:793-834 | The same of relaxation, which keeps all operands; branches left short bridge -128 to 127 bytes |
| WrittenCode.RuntimeMeaningKept | TestExecutor.CoverageInstrumenter/profiler/ILRewriter.cpp:1251-1475 | On one and the same runtime, which takes every branch as its opcode says and is arbitrary otherwise, the method written does what the method read does, for every run |
| Branching.RuntimeIsLengthBlind | TestExecutor.CoverageInstrumenter/profiler/ILRewriter.cpp:810-820 | For no such runtime the length of a branch makes a difference: long and short forms have the same condition, opcode by opcode |
| Branching.RuntimeCorresponds | TestExecutor.CoverageInstrumenter/profiler/ILRewriter.cpp:810-820 | Runtimes that differ in the numbers of instructions only correspond, as the main results ask |
| BytesToBytes.HeaderDepthSuffices | TestExecutor.CoverageInstrumenter/profiler/ILRewriter.cpp:374-403 | The header written holds, modulo 2^16, a depth that the body read determines: its own, the pushes of its instructions and the exact cost of the probes; and if that fits and the header read bounds the stack of the method read, the header written bounds the stack throughout every run of the method written |
| BytesToBytes.BytesPreserveRegions | TestExecutor.CoverageInstrumenter/profiler/ILRewriter.cpp:599-632 | Clause by clause, from the bytes read to the bytes written: an instruction of the written code lies in the same try block, filter and handler intervals as the original instruction it belongs to; flags and class tokens are kept |
| WholeMethod.Import | TestExecutor.CoverageInstrumenter/profiler/ILRewriter.cpp:437-458 | Import succeeds exactly if the code decodes and every clause resolves; the list is then the numbered body with its instructions as nodes, and the stack depth is raised by what the instructions push |
| Numbering.ValidAsNumbered | TestExecutor.CoverageInstrumenter/profiler/ILRewriter.cpp:599-632 | A list is a valid method body if the body that the bytes denote is: every condition on opcodes, targets, prefixes and clauses carries over from numbers to nodes |
| Numbering.SameCosts | TestExecutor.CoverageInstrumenter/profiler/ILRewriter.cpp:686-689 | Depth and length of the rewritten method can be read off the body that the bytes denote |
| NumberedRuns.RunAlike | TestExecutor.CoverageInstrumenter/profiler/ILRewriter.cpp:713-839 | For every run, numbering the nodes of a list and widening its short branches changes neither the trace nor the calls nor the depth of the stack |
| WrittenBody.WrittenRenders | TestExecutor.CoverageInstrumenter/profiler/ILRewriter.cpp:704-921 | What the written body is read as is the rewritten list with numbers for nodes and some short branches widened, clauses included, with no operand cut |
| Correspondence.CounterpartCorresponds | TestExecutor.CoverageInstrumenter/profiler/ILRewriter.cpp:1016-1193 | Every meaning that is blind to the length of branches can be moved to new instruction numbers |
| Simulation.MeaningPreserved | TestExecutor.CoverageInstrumenter/profiler/ILRewriter.cpp:1016-1193 | For every instruction semantics and every number of steps of the original there is a number of steps of the rewritten method after which the observed trace of original instructions and states is the same and the call log is exactly the enter probe followed by the probes of the executed instructions |
| Simulation.NothingAdded | TestExecutor.CoverageInstrumenter/profiler/ILRewriter.cpp:1016-1193 | Conversely, whatever an observer sees of a run of the rewritten method is a run of the original |
| Simulation.StackBounded | TestExecutor.CoverageInstrumenter/profiler/ILRewriter.cpp:374-403 | If a depth bounds the original, four slots more bound every step of the rewritten method, inside probe sequences too |
| Simulation.StepMatches | TestExecutor.CoverageInstrumenter/profiler/ILRewriter.cpp:1143-1193 | One step of the original is matched by the steps of its block, ending in the corresponding state, with the probes of the block called in order |
| Simulation.NeutralRun | TestExecutor.CoverageInstrumenter/profiler/ILRewriter.cpp:1154-1159 | A landing nop and complete probe calls have no effect but their calls and never use more than three slots |
| Instrumentation.SameRuns | TestExecutor.CoverageInstrumenter/profiler/ILRewriter.cpp:1251-1475 | Both directions together for what the rewriter produces, with every surviving copy labelled by the original instruction |
| Instrumentation.CoverageComplete | TestExecutor.CoverageInstrumenter/profiler/ILRewriter.cpp:1287-1419 | In every run each executed branch, switch, throw, rethrow, endfinally, endfilter and stsfld, each ret outside tail calls, each call outside them that completes, and each fall-through into a branch target outside them is reported under its original offset |
| Instrumentation.TailReturnReported | TestExecutor.CoverageInstrumenter/profiler/ILRewriter.cpp:1412-1461 | In every run an executed return of a tail call, at which no handler begins, is reported exactly if the tail. prefix in front of it has been executed before; a return reached by a branch is not, unless the original itself makes that report |
| Instrumentation.JumpIsValid | TestExecutor.CoverageInstrumenter/profiler/ILRewriter.cpp:1421-1461 | A branch to the return of a tail call occurs in a valid method |
| Instrumentation.JumpedReturnUnreported | TestExecutor.CoverageInstrumenter/profiler/ILRewriter.cpp:1421-1461 | A concrete method in which such a return is executed and never reported |
| Instrumentation.TailCallsAndHandlersReported | TestExecutor.CoverageInstrumenter/profiler/ILRewriter.cpp:1327-1399 | In every run a tail call is reported under the offset of the call and under that of the return before it starts, and each entered handler under the offset of its first instruction |
| Instrumentation.ReportsOnlyExecuted | TestExecutor.CoverageInstrumenter/profiler/ILRewriter.cpp:1287-1419 | The converse: in every run, whatever is reported, unless the original method itself calls a probe, goes to a probe that an instruction demands which has been executed, with the method id and its original offset (for a tail call, of its call or return); and what is reported behind an instruction only if this has completed |
| Instrumentation.MaxStackSuffices | TestExecutor.CoverageInstrumenter/profiler/ILRewriter.cpp:686-689 | A correct original depth plus the five slots paid for by the enter probe bounds every run of the rewritten method |
| RewriteIL.Rewrite | TestExecutor.CoverageInstrumenter/profiler/ILRewriter.cpp:1287-1466 | The rewriting loop on the heap list: result is a block-wise instrumentation of the imported body, all demanded probes fire with the original offsets and no others are there, the enter probe is in front with the first offset, clauses stay inside the list, depth and length grow by exactly what the probes of the body cost, and no node but the list's own is touched |
| RewriteIL.PriorityCost | TestExecutor.CoverageInstrumenter/profiler/ILRewriter.cpp:1401-1405 | The first loop inserts one probe for each instruction that ends a block, a second one for each tail call, and one for each clause; only first instructions of handlers are charged twice |
| RewriteIL.CoveredExactly | TestExecutor.CoverageInstrumenter/profiler/ILRewriter.cpp:1401-1419 | In front of a branch target, an offset is found covered by the second loop exactly if the instruction has a probe of its own |
| RewriteIL.FallCost | TestExecutor.CoverageInstrumenter/profiler/ILRewriter.cpp:1407-1419 | The second loop inserts one probe for each instruction without one in front of a branch target, however many branches lead there |
| RewriteIL.RerouteUnreachable | TestExecutor.CoverageInstrumenter/profiler/ILRewriter.cpp:1412-1461 | When a target probe is not skipped, the instruction behind its target is never the return of a tail call, so the rerouting of branches is dead code |
| RewriteIL.CountOffsets | TestExecutor.CoverageInstrumenter/profiler/ILRewriter.cpp:1043-1087 | Every node gets the byte offset of its instruction |
| RewriteIL.InsertPriorityProbes | TestExecutor.CoverageInstrumenter/profiler/ILRewriter.cpp:1402-1405 | Every planned probe ends up in the block it was planned for with the offset of its target, whatever was inserted before it; nothing else is inserted, and the set of covered offsets is that of the targets |
| RewriteIL.InsertTargetProbes | TestExecutor.CoverageInstrumenter/profiler/ILRewriter.cpp:1407-1419 | After the second loop every planned fall-through outside tail calls is reported by the block in front of the target, and no probe reports a foreign offset |
| Reassembly.OffsetIsImported | TestExecutor.CoverageInstrumenter/profiler/ILRewriter.cpp:1043-1087 | The offset counted for an instruction of the imported body, which probes report, is the byte offset at which the decoder found it |
| Scanning.Scan | TestExecutor.CoverageInstrumenter/profiler/ILRewriter.cpp:1288-1393 | The scan leaves a plan with the demanded probe for each instruction that ends a block, two for a tail call, and a fall-through probe in front of every branch target, in an order in which all can be inserted, and splits each tail. prefix into a nop and a fresh prefix |
| Scanning.BranchTargets | TestExecutor.CoverageInstrumenter/profiler/ILRewriter.cpp:1290-1312 | A branch or switch plans a probe behind the predecessor of each of its targets |
| Scanning.PassTail | TestExecutor.CoverageInstrumenter/profiler/ILRewriter.cpp:1327-1349 | The prefix moves to a fresh node behind a nop; the nop takes the offset of the return and the prefix that of the call |
| Weaving.MakeProbeInsertion | TestExecutor.CoverageInstrumenter/profiler/ILRewriter.cpp:1233-1241 | A planned insertion grows exactly the block it is meant for: it gains the one event with the offset of the target, in front or behind as planned, and no block loses or gains another |
| InstructionList.ILRewriter.NewILInstr | TestExecutor.CoverageInstrumenter/profiler/ILRewriter.cpp:634-638 | A fresh node that is counted but not yet linked |
| InstructionList.ILRewriter.InsertBefore | TestExecutor.CoverageInstrumenter/profiler/ILRewriter.cpp:664-673 | The list stays a circular doubly linked list of the counted length with the node spliced in front, and the depth grows by what the opcode pushes |
| InstructionList.ILRewriter.InsertAfter | TestExecutor.CoverageInstrumenter/profiler/ILRewriter.cpp:675-684 | The same behind a node |
| CoverageProbes.AddProbe | TestExecutor.CoverageInstrumenter/profiler/ILRewriter.cpp:968-989 | Address and signature of a probe are spliced in front of a node as ldc.i8 and calli |
| CoverageProbes.AddCoverageProbeAfter | TestExecutor.CoverageInstrumenter/profiler/ILRewriter.cpp:1143-1165 | The node is followed by a complete call and a nop; handlers that ended at the node end at the nop; the event carries the node's offset |
| CoverageProbes.AddCoverageProbeBefore | TestExecutor.CoverageInstrumenter/profiler/ILRewriter.cpp:1168-1193 | The node becomes a landing nop, a complete call and a copy of the instruction follow, and handlers that ended at the node end at the copy |
| CoverageProbes.CorrectHandlers | TestExecutor.CoverageInstrumenter/profiler/ILRewriter.cpp:1130-1140 | Exactly the handler ends equal to the node move |
| CoverageProbes.AddEnterProbe | TestExecutor.CoverageInstrumenter/profiler/ILRewriter.cpp:1016-1041 | The three-argument call stands in front of the first node and reports that node's offset |
| Growth.GrownRegions | TestExecutor.CoverageInstrumenter/profiler/ILRewriter.cpp:1130-1193 | Growing a node keeps the try, filter and handler regions of every old node and puts the new nodes into those of the node grown |
| Blocks.NeutralConcat | TestExecutor.CoverageInstrumenter/profiler/ILRewriter.cpp:1154-1159 | Inserted code composes: the calls of a concatenation are the calls of its parts in order |
| Codec.DecodeEncode | TestExecutor.CoverageInstrumenter/profiler/ILRewriter.cpp:460-597 | Importing the bytes exported for a well-shaped list gives back the list, every branch and switch arm with the same target, operands cut to their width |
| CodeLayout.OpcodeBytesAt | TestExecutor.CoverageInstrumenter/profiler/ILRewriter.cpp:475-499 | An opcode below 0x100 is the byte at the offset of its instruction, any other the byte behind 0xFE there |
| CodeLayout.BranchBytesAt | TestExecutor.CoverageInstrumenter/profiler/ILRewriter.cpp:535-542 | A branch leads as far from its end as the one or four bytes of its operand say as a signed number |
| CodeLayout.SwitchBytesAt | TestExecutor.CoverageInstrumenter/profiler/ILRewriter.cpp:543-577 | A switch has as many arms as its four bytes say, and every arm leads as far from the end of the table as its four bytes say |
| CodeLayout.OperandBytesAt | TestExecutor.CoverageInstrumenter/profiler/ILRewriter.cpp:519-534 | All other operands are the signed numbers in the bytes behind the opcode |
| CodeLayout.OneInstruction | TestExecutor.CoverageInstrumenter/profiler/ILRewriter.cpp:475-499 | All opcodes but 0xF8 to 0xFE, and from 0x126 on, are accepted |
| OpcodeTable.TableHolds | TestExecutor.CoverageInstrumenter/profiler/ILRewriter.cpp:30-321 | For every opcode, kind and size of the operand and the number of pushes are those of an independent table of all 294 |
| Codec.EncodeDecode | TestExecutor.CoverageInstrumenter/profiler/ILRewriter.cpp:713-839 | Whatever the importer accepts is the encoding of what it returns, and that is fit to be exported again |
| Importing.ImportIL | TestExecutor.CoverageInstrumenter/profiler/ILRewriter.cpp:460-597 | The import loop builds exactly the list that the decoder describes, fails exactly when it does and for the same reason, and leaves the offset table that clauses are resolved with |
| Importing.GetInstrFromOffset | TestExecutor.CoverageInstrumenter/profiler/ILRewriter.cpp:640-649 | Finds the node at a byte offset, the sentinel for the end of the code, and nothing elsewhere |
| Importing.ResolveTargets | TestExecutor.CoverageInstrumenter/profiler/ILRewriter.cpp:586-594 | Fails exactly if some branch does not lead to the start of an instruction or the end; otherwise every operand holds the node |
| Exporting.ExportCode | TestExecutor.CoverageInstrumenter/profiler/ILRewriter.cpp:704-839 | The retry loop ends with the relaxed code in the list, every node at its offset in that code, and the buffer holding its encoding, inside the ten bytes per instruction |
| Exporting.EmitPass | TestExecutor.CoverageInstrumenter/profiler/ILRewriter.cpp:718-773 | One pass writes opcodes and plain operands at the offsets of the layout |
| Exporting.ResolvePass | TestExecutor.CoverageInstrumenter/profiler/ILRewriter.cpp:775-839 | The second pass patches all operands that reach and widens exactly the short branches that do not |
| Relaxation.Relaxed | TestExecutor.CoverageInstrumenter/profiler/ILRewriter.cpp:713-839 | Repeating the retry ends, and in the result every short branch reaches its target and nothing but opcodes of short branches has changed |
| Relaxation.RelaxedIsLeast | TestExecutor.CoverageInstrumenter/profiler/ILRewriter.cpp:793-834 | Any layout in which all remaining short branches reach has widened every branch that relaxation widens |
| Relaxation.FewerShorts | TestExecutor.CoverageInstrumenter/profiler/ILRewriter.cpp:793-838 | Every retry leaves fewer short branches than before |
| Relaxation.SizeBound | TestExecutor.CoverageInstrumenter/profiler/ILRewriter.cpp:706-710 | The offset behind any instruction stays below ten bytes per instruction, so no write leaves the buffer |
| Relaxation.RelaxedExportable | TestExecutor.CoverageInstrumenter/profiler/ILRewriter.cpp:713-839 | What is exported for a well-shaped list can be decoded again to the relaxed list |
| Relaxation.ImportedBytesUnchanged | TestExecutor.CoverageInstrumenter/profiler/ILRewriter.cpp:713-839 | An unedited imported body is exported as identical code bytes |
| ExceptionClauses.ImportEH | TestExecutor.CoverageInstrumenter/profiler/ILRewriter.cpp:599-632 | Succeeds exactly if all boundaries are starts of instructions or the end, and the clauses then refer to the nodes that the offsets denote, handler ends inclusive |
| ExceptionClauses.ExportEH | TestExecutor.CoverageInstrumenter/profiler/ILRewriter.cpp:889-914 | The offsets written are those that denote the clauses in the exported layout |
| ExceptionClauses.ExportsDenote | TestExecutor.CoverageInstrumenter/profiler/ILRewriter.cpp:902-910 | The intervals written contain the offset of an instruction exactly if the clause contains the instruction |
| ExceptionClauses.ImportsExports | TestExecutor.CoverageInstrumenter/profiler/ILRewriter.cpp:619-628 | Importing an exported clause gives back the clause |
| ExceptionClauses.ExportsImports | TestExecutor.CoverageInstrumenter/profiler/ILRewriter.cpp:902-910 | Exporting an imported clause gives back its offsets, also when a length wraps around |
| BodyFormat.WriteBody | TestExecutor.CoverageInstrumenter/profiler/ILRewriter.cpp:865-914 | Every byte is inside memory of exactly totalSize bytes, and the runtime's decoder reads back flags, depth modulo 2^16, local signature, code and clauses |
| BodyFormat.BodyRead | TestExecutor.CoverageInstrumenter/coreclr/inc/corhlpr.h:501-576 | The decoder of fat bodies recovers all fields from header, aligned code and section bytes |
| BodyLayout.FieldsAt | TestExecutor.CoverageInstrumenter/coreclr/inc/corhlpr.h:501-576 | Flags, stack depth, code size, local signature, code and the six words of every clause are read from the bytes where the format has them, byte by byte |
| MethodExport.Export | TestExecutor.CoverageInstrumenter/profiler/ILRewriter.cpp:704-921 | The body written for a rewritten list decodes to the relaxed code and the clauses of the list in the relaxed layout |
| MethodExport.ExportedDepth | TestExecutor.CoverageInstrumenter/profiler/ILRewriter.cpp:880-880 | The header holds the imported depth plus the exact cost of the probes exactly if the sum fits sixteen bits, and then it bounds every run |
| Reassembly.RewrittenShape | TestExecutor.CoverageInstrumenter/profiler/ILRewriter.cpp:1016-1193 | A rewritten list is again well shaped: switch arms still follow their switch and no branch leads into inserted code |
| Reassembly.SameRegions | TestExecutor.CoverageInstrumenter/profiler/ILRewriter.cpp:1130-1193 | Every node of a block lies in the regions of the original instruction |
| Reassembly.RegionsExported | TestExecutor.CoverageInstrumenter/profiler/ILRewriter.cpp:889-914 | The exported intervals contain a node of the rewritten list exactly if the original clause contains its original instruction |
| CrstTypes.CrstTypeTool.Join | TestExecutor.CoverageInstrumenter/coreclr/inc/CrstTypeTool.cs:894-958 | Groups stay disjoint, free of duplicates and consistent with the types' own group, and the declared pair is what has been added to the relation they represent |
| CrstTypes.CrstTypeTool.ChangeGroups | TestExecutor.CoverageInstrumenter/coreclr/inc/CrstTypeTool.cs:898-954 | Create, extend or absorb: the groups of exactly the two types and their mates become one |
| CrstTypes.CrstTypeTool.SameGroup | TestExecutor.CoverageInstrumenter/coreclr/inc/CrstTypeTool.cs:871-881 | After any sequence of joins two types share a group exactly if the declared pairs connect them |
| CrstValidation.FindCycle | TestExecutor.CoverageInstrumenter/coreclr/inc/CrstTypeTool.cs:309-334 | Ends on every graph; finds a cycle exactly if one through the root avoids the types on the path; on success the list is a simple path whose last type leads to the root, on failure it is as on entry |
| CrstValidation.SearchFromRoot | TestExecutor.CoverageInstrumenter/coreclr/inc/CrstTypeTool.cs:264-265 | Started at the root, the search succeeds exactly if the root lies on a cycle |
| CrstValidation.NormalizeAllRules | TestExecutor.CoverageInstrumenter/coreclr/inc/CrstTypeTool.cs:961-989 | Every type gets exactly the rules of its whole group, and members of a group the same list |
| CrstValidation.ValidateCrsts | TestExecutor.CoverageInstrumenter/coreclr/inc/CrstTypeTool.cs:223-299 | Accepts exactly if all types are defined, unordered types take no part, and the rules have no cycle among groups; ends in the index exception exactly if the first type that fails a check is a grouped unordered one without rules |
| CrstValidation.UnorderedWithItself | TestExecutor.CoverageInstrumenter/coreclr/inc/CrstTypeTool.cs:238-244 | One unordered type that is to share its level with itself ends in that exception |
| Digraph.NormalizedCycles | TestExecutor.CoverageInstrumenter/coreclr/inc/CrstTypeTool.cs:275-296 | The normalised rules have a cycle exactly if the quotient by groups has one |
| Digraph.ReachesByStep | TestExecutor.CoverageInstrumenter/coreclr/inc/CrstTypeTool.cs:315-327 | A search that looks at the successors of a node and avoids the path so far misses no way to the root |
| Digraph.SuccessorsCycle | TestExecutor.CoverageInstrumenter/coreclr/inc/CrstTypeTool.cs:439-447 | If every type of a finite set has a rule into the set, there is a cycle |
| CrstLevels.LevelCrsts | TestExecutor.CoverageInstrumenter/coreclr/inc/CrstTypeTool.cs:341-463 | On acyclic normalised rules the ranking ends; it throws exactly if on the first pass no type is free of rules; the second exception never occurs; otherwise all types are ranked correctly with respect to the original rules |
| CrstLevels.RankPass | TestExecutor.CoverageInstrumenter/coreclr/inc/CrstTypeTool.cs:370-437 | One pass ranks exactly the types that are ready, singletons on one level and each group on a level of its own, and keeps the ranking correct |
| CrstLevels.Prune | TestExecutor.CoverageInstrumenter/coreclr/inc/CrstTypeTool.cs:452-458 | After pruning, the remaining rules are those that lead to types without rank |
| CrstLevels.RankingIsCorrect | TestExecutor.CoverageInstrumenter/coreclr/inc/CrstTypeTool.cs:341-463 | Every rule between ordered types leads to a strictly lower level, a group shares a level with nobody else, and the levels used are exactly 0 to the maximum |
| CrstLevels.Process | TestExecutor.CoverageInstrumenter/coreclr/inc/CrstTypeTool.cs:61-113 | Exit code 0 exactly if the definitions are acceptable and the ranking is not blocked, 5 exactly if an exception ends the checks or the ranking, and 3 exactly if the checks reject the definitions; on success the levels respect the original rules |
| CrstLevels.NeverBlocked | TestExecutor.CoverageInstrumenter/coreclr/inc/CrstTypeTool.cs:365-462 | If no rule leads to an unordered type, acceptable definitions are never blocked |
| CrstLevels.BlockedByUnordered | TestExecutor.CoverageInstrumenter/coreclr/inc/CrstTypeTool.cs:443-447 | The comment that the exception is pure paranoia is wrong: two accepted definitions, one acquired before an unordered one, always raise it |
| ObjectsComparer.AreEqual | TestExecutor.Core/ObjectsComparer.cs:87-98 | Ends on every finite object graph, cyclic or not, and answers true exactly if some bisimulation over the compared fields and elements relates the two values |
| ObjectsComparer.ObjectComparer.Equals | TestExecutor.Core/ObjectsComparer.cs:53-79 | Assuming equality of pairs already seen is sound: on true everything in the set is justified by the set, on false the values are not bisimilar |
| ObjectsComparer.ObjectComparer.ContentwiseEqual | TestExecutor.Core/ObjectsComparer.cs:29-49 | Arrays match exactly if shapes, bounds and elements do |
| ObjectsComparer.ObjectComparer.StructurallyEquals | TestExecutor.Core/ObjectsComparer.cs:13-27 | Objects match exactly if all compared fields do; delegates and thread-id fields are not looked at |
| ObjectsComparer.RecordsBisimilar | TestExecutor.Core/ObjectsComparer.cs:13-27 | Two objects are equal exactly if their types are and their values in every field that is no delegate and whose name has no eight consecutive characters reading threadid in any mix of cases; all other fields make no difference |
| ObjectsComparer.ArraysBisimilar | TestExecutor.Core/ObjectsComparer.cs:29-49 | Two arrays are equal exactly if types, lengths and lower bounds in all dimensions, and all elements are |
| ObjectsComparer.OthersBisimilar | TestExecutor.Core/ObjectsComparer.cs:53-79 | Null equals null only, primitive values are equal exactly if type and value are, and no object equals one of another sort |
| ObjectsComparer.Reflexive | TestExecutor.Core/ObjectsComparer.cs:53-79 | Every value equals itself |
| ObjectsComparer.Symmetric | TestExecutor.Core/ObjectsComparer.cs:53-79 | The comparison is symmetric |
| ObjectsComparer.Transitive | TestExecutor.Core/ObjectsComparer.cs:53-79 | The comparison is transitive |
| CoverageProtocol.ReactKeeps | TestExecutor.CoverageInstrumenter/profiler/threadTracker.cpp:6-101 | Every callback keeps a thread's maps consistent; it completes at most one invocation, with records of that thread only and under its number; without a tail call a tracked thread stays inside a frame, an untracked thread is left alone, and numbers are kept until an invocation ends |
| CoverageProtocol.FilterKeepsFrame | TestExecutor.CoverageInstrumenter/profiler/threadTracker.cpp:70-101 | While an exception filter runs, no callback finishes the invocation; an unwind of main takes away a frame but never the last |
| CoverageProtocol.AssertionsFail | TestExecutor.CoverageInstrumenter/profiler/threadTracker.cpp:6-101 | Which callbacks violate an assertion in which of the states that the trackers agree about, as conditions on the state before; a thread outside main frames may make any, and none changes it but entering one and being numbered |
| CoverageProtocol.InvocationFinishes | TestExecutor.CoverageInstrumenter/profiler/probes.cpp:79-128 | A well-nested invocation, with nested ones, filters, tail calls and un-nested foreign unwinds in it, violates no assertion; it finishes, exactly once and with exactly its own records in order, if and only if no tail call leads its last frame out of the main methods |
| CoverageProtocol.TailCallMerges | TestExecutor.CoverageInstrumenter/profiler/probes.cpp:79-128 | Otherwise it is finished together with the next invocation of its thread, as one with the records of both |
| CoverageProtocol.NestedUnwindsFail | TestExecutor.CoverageInstrumenter/profiler/threadTracker.cpp:63-80 | In every tracked state two nested unwinds fail an assertion, except exactly when both functions have ids and the end of the inner one finishes the invocation: it unwinds main, this is the thread's last main frame, no filter is active, and the thread is numbered or the run passive |
| CoverageProtocol.NestedUnwindsReached | TestExecutor.CoverageInstrumenter/profiler/threadTracker.cpp:63-80 | A run from the start in which nested unwinds fail |
| CoverageRuns.ThreadsApart | TestExecutor.CoverageInstrumenter/profiler/threadStorage.h:13-102 | However callbacks of threads interleave, state and completed invocations of a thread depend on its own callbacks only |
| CoverageRuns.InvocationAmongThreads | TestExecutor.CoverageInstrumenter/profiler/probes.cpp:98-128 | A well-nested invocation finishes exactly once whatever other threads do meanwhile |
| CoverageRuns.TrackersAgree | TestExecutor.CoverageInstrumenter/profiler/threadTracker.cpp:6-80 | From the start on, in every run with reports at any time, balances, filter counts and coverage have the same threads; every balance is at least 1, or 0 if its thread has made a tail call |
| CoverageRuns.EveryInvocationReportedOnce | TestExecutor.CoverageInstrumenter/profiler/coverageTracker.cpp:78-162 | Over a whole run, the completed entries of all reports followed by those still kept are exactly the finished invocations in order |
| CoverageRuns.AllReportsSelfContained | TestExecutor.CoverageInstrumenter/profiler/coverageTracker.cpp:110-170 | If method ids come from collectMethod, every method a record mentions is in the table of its own report, and tables have no duplicate keys |
| CoverageRuns.TablesFaithful | TestExecutor.CoverageInstrumenter/profiler/coverageTracker.cpp:116-120 | Over a whole run, the entry of a number in any method table is the method that was announced under that number |
| CoverageRuns.TablesVisited | TestExecutor.CoverageInstrumenter/profiler/coverageTracker.cpp:78-120 | Tables list no method but those that invocations finished so far mention |
| CoverageRuns.RequestReports | TestExecutor.CoverageInstrumenter/profiler/coverageTracker.cpp:122-155 | After any run, a request reports all kept entries, and then exactly one empty entry for each numbered thread that no entry of this or any earlier report mentions; nothing remains known of any thread |
| CoverageReports.ReportDecodes | TestExecutor.CoverageTool/CoverageDeserializer.fs:53-134 | The tool decodes the bytes of a report exactly if no name is empty, and then finds in it every record with its offset, event, thread and method, in order, and every method with its token and its names |
| CoverageReports.EventBack | TestExecutor.CoverageInstrumenter/profiler/coverageTracker.h:13-23 | The code of an event is its place in the enumeration |
| CoverageReports.ProbeCodes | TestExecutor.CoverageInstrumenter/profiler/probes.cpp:55-134 | The code that the tool reads tells which probe has recorded an event, and throw and handlers are recorded as leaving |
| CoverageReports.RunDecodes | TestExecutor.CoverageInstrumenter/profiler/coverageTracker.cpp:78-162 | From the start on, the histories decoded from the bytes of all reports of a run, followed by those still kept, are the finished invocations in order, record by record |
| CoverageReports.SmallReport | TestExecutor.CoverageInstrumenter/profiler/coverageTracker.cpp:110-162 | The bytes of a small report |
| CoverageReports.SmallRecord | TestExecutor.CoverageInstrumenter/profiler/coverageTracker.cpp:19-24 | The bytes of a record |
| CoverageReports.SmallMethod | TestExecutor.CoverageInstrumenter/profiler/coverageTracker.cpp:9-15 | The bytes of a method |
| CoverageReports.NamelessFails | TestExecutor.CoverageTool/CoverageDeserializer.fs:71-76 | A report whose only method has no module name cannot be decoded |
| CoverageReports.ReportUsable | TestExecutor.CoverageTool/CoverageDeserializer.fs:104-134 | A self-contained report decodes completely and every location finds its method |
| CoverageReports.RecordsBack | TestExecutor.CoverageInstrumenter/profiler/serialization.h:6-18 | Serialized records are recovered from anywhere in the buffer, each with its offset, event, thread and method |
| Trackers.ThreadStorage.Update | TestExecutor.CoverageInstrumenter/profiler/threadStorage.h:54-62 | Replaces the entry by its image and returns it |
| Trackers.ThreadStorage.Items | TestExecutor.CoverageInstrumenter/profiler/threadStorage.h:94-102 | Lists every entry once, in the order of threads |
| Trackers.Profiler.AddCoverage | TestExecutor.CoverageInstrumenter/profiler/coverageTracker.cpp:68-76 | Opens or extends exactly the history of the thread |
| Trackers.Profiler.InvocationFinished | TestExecutor.CoverageInstrumenter/profiler/coverageTracker.cpp:78-108 | Turns the history of the thread into one entry of the next report, in bytes too, and forgets it |
| Trackers.Profiler.LoseCurrentThread | TestExecutor.CoverageInstrumenter/profiler/threadTracker.cpp:41-56 | All maps forget the thread but the mapping of a passive run |
| Trackers.Profiler.TrackEnterMain | TestExecutor.CoverageInstrumenter/profiler/probes.cpp:98-109 | Makes the step of the protocol for entering a main frame |
| Trackers.Profiler.Track | TestExecutor.CoverageInstrumenter/profiler/probes.cpp:55-134 | Makes the step for the probes inside a method, each with its own event |
| Trackers.Profiler.TrackTailcall | TestExecutor.CoverageInstrumenter/profiler/probes.cpp:79-85 | Makes the step for a tail call, which takes the frame away without looking whether it was the last |
| Trackers.Profiler.TrackLeaveMain | TestExecutor.CoverageInstrumenter/profiler/probes.cpp:119-128 | Makes the step for leaving a main frame |
| Trackers.Profiler.UnwindFunctionEnter | TestExecutor.CoverageInstrumenter/profiler/threadTracker.cpp:63-68 | Makes the step for the start of an unwind, which needs a tracked thread and a function with an id |
| Trackers.Profiler.UnwindFunctionLeave | TestExecutor.CoverageInstrumenter/profiler/threadTracker.cpp:70-80 | Makes the step for the end of an unwind, with the filter guard |
| Trackers.Profiler.FilterEnter | TestExecutor.CoverageInstrumenter/profiler/threadTracker.cpp:82-88 | Makes the step for entering a filter |
| Trackers.Profiler.FilterLeave | TestExecutor.CoverageInstrumenter/profiler/threadTracker.cpp:90-96 | Makes the step for leaving a filter |
| Trackers.Profiler.MapCurrentThread | TestExecutor.CoverageInstrumenter/profiler/threadTracker.cpp:103-105 | Makes the step for numbering a thread |
| Trackers.Profiler.CollectMethod | TestExecutor.CoverageInstrumenter/profiler/coverageTracker.cpp:164-170 | Issues the next method id |
| Trackers.Profiler.GetHistory | TestExecutor.CoverageInstrumenter/profiler/api.cpp:16-30 | The bytes returned are those of the report the protocol prescribes, and all trackers are as it prescribes |
| CorSignature.UncompressCompressed | TestExecutor.CoverageInstrumenter/coreclr/inc/cor.h:1875-1936 | Every integer up to 0x1FFFFFFF is read back, with its byte count, whatever follows |
| CorSignature.CompressedNumber | TestExecutor.CoverageInstrumenter/coreclr/inc/cor.h:2105-2133 | An integer takes one byte up to 0x7F, two up to 0x3FFF and four otherwise, which hold it, the highest byte first, behind the bits 0, 10 or 110 |
| CorSignature.UncompressNumber | TestExecutor.CoverageInstrumenter/coreclr/inc/cor.h:1875-1936 | What the checked decoder reads from any bytes, and which it refuses, by the numbers in them |
| CorSignature.UncompressCompressedSigned | TestExecutor.CoverageInstrumenter/coreclr/inc/cor.h:2047-2076 | Every compressible signed integer is read back with its byte count |
| CorSignature.SignedNumber | TestExecutor.CoverageInstrumenter/coreclr/inc/cor.h:2176-2216 | A signed integer takes one byte exactly from -2^6 to 2^6 - 1, two exactly from there to -2^13 and 2^13 - 1, four otherwise, and the bytes hold twice its distance from zero or from the least number of so many bytes, plus one if it is negative |
| CorSignature.UncompressSignedNumber | TestExecutor.CoverageInstrumenter/coreclr/inc/cor.h:2047-2076 | What the signed decoder makes of any bytes |
| CorSignature.SignedRange | TestExecutor.CoverageInstrumenter/coreclr/inc/cor.h:2176-2216 | Compressible are exactly -2^28 to 2^28 - 1 |
| CorSignature.UncompressCompressedToken | TestExecutor.CoverageInstrumenter/coreclr/inc/cor.h:1990-2012 | Every token decodes, with its byte count, and to itself exactly if its type is one of the four known ones; others silently become type definitions |
| CorSignature.TokenNumber | TestExecutor.CoverageInstrumenter/coreclr/inc/cor.h:2138-2171 | A token is compressed as four times its row plus 0 to 3 for the tables 2, 1, 0x1B and 0x72 |
| CorSignature.DataTokenNumber | TestExecutor.CoverageInstrumenter/coreclr/inc/cor.h:1990-2012 | A decoded token has a quarter of the integer as its row and the table of the remainder |
| CorSignature.SignatureBack | TestExecutor.CoverageInstrumenter/coreclr/inc/cor.h:1875-2076 | Any concatenation of unsigned, signed and token items is read back item by item |
| CorSignature.UncheckedAgrees | TestExecutor.CoverageInstrumenter/coreclr/inc/cor.h:1778-1808 | The unchecked decoder agrees with the checked one exactly on the first bytes the checked one accepts |
| CorSignature.CorSigCompressData | TestExecutor.CoverageInstrumenter/coreclr/inc/cor.h:2105-2133 | -1 exactly for values that are too large, and then nothing is written; otherwise the compressed bytes and nothing else |
| CorSignature.CorSigCompressToken | TestExecutor.CoverageInstrumenter/coreclr/inc/cor.h:2138-2171 | Writes the compressed token and nothing else; the size check can never fail |
| CorSignature.CorSigCompressSignedInt | TestExecutor.CoverageInstrumenter/coreclr/inc/cor.h:2176-2216 | -1 exactly outside the range; otherwise the compressed bytes and nothing else |

## Left out

- WholeMethod.RewriteMethod: when ten bytes per instruction of the rewritten list reach 2^31, the outcome is `TooLarge` and nothing is written; the original's 32-bit size computations have no check there, and what they do then is not modelled. Exception tables of 2^24 bytes or more are excluded.
- BytesToBytes.HeaderDepthSuffices: the depth field of the header has 16 bits and is cut without a check; whether a cut depth is still enough for the runs of the method is not claimed.
- BytesToBytes.BytesPreserveMeaning: an empty method body is excluded, and method ids and probe addresses are those that fit their operands.
- Codec.DecodeEncode: operands of the list are unbounded integers that are cut to their width when exported, so a list with wider operands comes back cut (`Normal`); the operand union of a node is one variant at a time.
- CoverageProtocol.InvocationFinishes: excludes aborted invocations, unwinds of main inside filters (see `FilterKeepsFrame`), and reports in the middle of the invocation.
- Trackers.Profiler.GetHistory: report and clearing are one step; callbacks of other threads between the two are not modelled.
- Opcode table: `opcode.def` is not part of this model; opcodes, operand sizes and pushes are those the rewriter's table gives for the standard instruction set (section III of ECMA-335).
- Instruction semantics of the runtime, the just-in-time compiler and verification: a parameter of the machine.
- The body of the tail-call rerouting, the tiny header, small exception sections, `AddProbeAfter` and `AddExitProbe`, which are not used.
- Profiler and COM calls, signature tokens of probes, memory allocation and its failures, logging and printing.
- Import failures reach a debug assertion in the original; here they are results of the import.
- Aborted invocations (the coverage pointer is used before its null check), `Track_Enter`, `Track_Leave` and `Finalize_Call`: `collectMainOnly` is always true, so only main methods are instrumented and these are never called.
- Assertions of the trackers are preconditions of their methods and the outcome `Violation` of the protocol.
- Interleaving inside one callback and the locks; each callback is one step.
- That every numbered thread is in every report: the list of reported thread numbers is never cleared, and the model keeps that.
- Unpaired surrogates in names, which the decoder would replace.
- Shutdown, instrumented-method bookkeeping and entry-point selection in `corProfiler.cpp` and `instrumenter.cpp`.
- Lexing and parsing of lock definitions, error texts and the generated header file of the ranking tool.
- Field lists of types are fixed and given, boxed values are objects with an identity, pairs already seen are compared by identity, and the test for thread-id fields folds case for ASCII letters only.
- Hash codes, the gRPC service, test resolution by reflection, and the other headers under `coreclr/inc`.
