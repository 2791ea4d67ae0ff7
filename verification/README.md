# LLVM-Tracer in Dafny

LLVM-Tracer makes dynamic traces of C programs. An LLVM pass rewrites every function so that it logs each
instruction with its operands and result; a runtime library decides, per thread, which of these records are
written, and to which compressed file; a Clang pass lists the source labels that go at the head of every file.
This project models these parts and proves what they are for:

* the instrumented program does what the original one does, unless an assertion of the logger aborts it, which is
  told exactly from the original program, and it logs exactly the intended trace;
* what reaches a trace file is that trace cut to the activations of the tracked functions, it can be read back,
  and other threads have no influence on it;
* the numbering of values and metadata, the static ids and the label map are what the rest relies on.

| file | content |
|---|---|
| `Wrappers.dfy` | optional values, results, facts about sequences |
| `TraceText.dfy`, `Tokens.dfy`, `TraceFile.dfy` | the text of trace records and values, a parser for it, hex output of vectors, a reader of whole files |
| `Logger.dfy`, `Runs.dfy`, `Walks.dfy` | what each call of the runtime logger does to one thread; whole bracketed runs; any run, nested or unfinished |
| `LineTexts.dfy`, `LoggerFacts.dfy` | the text of each line, what its value token says, and what each call adds to a file |
| `LoggerRuntime.dfy` | the runtime library as objects that are updated in place |
| `Threads.dfy`, `Isolation.dfy`, `Completion.dfy` | all interleavings of threads over the shared, locked map of files; that they can always finish |
| `StaticIds.dfy`, `InstIds.dfy` | ids of blocks and of instructions |
| `Ir.dfy` | functions, blocks and instructions; what is to be logged for each of them (`Annotations`) |
| `Pass.dfy`, `LineTags.dfy`, `Headers.dfy` | the code that the pass inserts, shared vector buffers, erasure, operand numbers, headers |
| `LineContent.dfy`, `FunctionContent.dfy` | what the lines show, said over operands and types; all steps of an instrumented function |
| `Edits.dfy`, `BlockEdits.dfy`, `TracerPass.dfy` | the pass as an object that edits the blocks of a function in place |
| `Semantics.dfy` | running any program, instrumented or not; the intended trace of a program |
| `InsertedCode.dfy`, `AnnotationFacts.dfy`, `Correctness.dfy`, `Preservation.dfy` | the simulation: same states, same log |
| `VectorTypes.dfy` | which vector types can share a buffer, and what happens if two do |
| `EndToEnd.dfy`, `CleanTraces.dfy` | from source program to trace file, in one thread and in many; which programs have readable traces |
| `Processes.dfy`, `CallGraph.dfy` | the process that the logger can abort against the original run; programs that are never aborted |
| `Metadata.dfy`, `MetadataSearch.dfy`, `SlotTracker.dfy`, `SlotRuns.dfy` | the slot tracker: depth-first numbering and when it ends, lazy initialisation, whole runs |
| `SlotFacts.dfy`, `SlotReferences.dfy`, `SlotOrder.dfy` | which values, metadata nodes and attribute sets are numbered, and in which order, said over the module and its functions |
| `Labels.dfy`, `LabelFacts.dfy` | the label walk, the label map, and the search for callers that are not inlined |

How the pieces fit: `TracerPass.Tracer.RunOnFunction` edits the blocks of a function in place into
`Pass.Instrument`, and `FunctionContent.FunctionKnown` says step by step what that logs, over the instructions, operands
and types of the function. `Correctness.SimFunction` says what happens when the instrumented functions run - states seen and
logger calls made, in one order - as long as the logger lets them, and `Preservation.SameEvents` compares that with
the original program. The calls are a bracketed run, to which the theorems of `Runs` and `Walks` apply; each such call
is `Logger.Step`, which the methods of `LoggerRuntime.Runtime` carry out. `EndToEnd` says what they leave in the files,
and `Processes.SameMeaning` cuts the run at the call at which the logger stops, if there is one. `Threads` takes the same
calls apart into single steps, and `Isolation.NonInterference` says that each thread's files are those of its run alone.

What the world around a program does is a parameter of the semantics (`Semantics.Machine`): what instructions
compute, where branches go, what functions outside the program and calls through pointers do. Every theorem holds for
every such machine. `fuel` bounds a run; as the theorems hold for every amount of it, they cover runs that never end.

Where the code and its comments differ, the code is followed: the comment on `trace_logger_update_status` says
that it is called after return instructions, while the pass calls it before them and at function entries
(full-trace/full_trace.cpp:487-493, 1104-1106); the comment on the block ids allows loop depths of three digits, but
only two characters of the depth are kept after a name (full-trace/full_trace.cpp:852-863).

Conditions under which the theorems about the pass hold, each one a fact of the code: tracing is in top-level mode,
the only mode in which the inserted calls open a trace file; a tracked function has a name, is not `main` (which
gets no entry record) and is not one whose body the pass skips; no two vector types logged in one function share a
buffer (`Ir.KeysEqual` says which types do; whole bytes without pointers never do, and `VectorTypes` shows what happens
otherwise); no branch goes to the entry block, and every block ends in an instruction that is no phi, as in all valid
LLVM code.

## Model

| member | source | states |
|---|---|---|
| Processes.SameMeaning | profile-func/trace_logger.cpp:119-141 | for every program, arguments, world, fuel and machine: the process of the instrumented program either ends as the original run does, after the same registers and worlds in the same order, or is aborted by one of the two assertions, after some first part of them and at exactly the call that stops the logger; which of the two, and at which assertion, is told from the trace of the original; a run that returns is aborted if and only if tracked activations nest; the files hold what was written by then |
| Processes.NestingAborts | profile-func/trace_logger.cpp:132-138 | a program that returns, and whose process is aborted once it is instrumented: one tracked function calls another |
| CallGraph.NeverAborted | profile-func/trace_logger.cpp:119-141 | if in the call graph, indirect calls included, no tracked function leads to a tracked function, then on every machine whose pointers stay within the given functions the process ends as the original run does, with the same events, and its files hold exactly the sessions of the intended trace |
| EndToEnd.LogOfEveryRun | profile-func/trace_logger.cpp:119-247 | for every run, nested or not, returned or not: the logger has stopped if and only if the trace with its open activations says so, at the assertion it says, and the files hold record by record what the trace has written by then |
| EndToEnd.LogOfProgram | full-trace/full_trace.cpp:359-525 | for every run: its logger has stopped if and only if its trace with the open activations says so; without nesting, returned or not, it has not and the files hold exactly the sessions of the trace; a run that returns has stopped if and only if tracked activations nest |
| Walks.FollowOpen | profile-func/trace_logger.cpp:119-247 | any bracketed run from any state it can be in, complete or with activations still open: the logger is in exactly the session, with the name, file and counter, or at the assertion that the items lead to, and has written exactly their records to their files |
| Walks.DeadIffNested | profile-func/trace_logger.cpp:119-141 | the walk over a complete run ends at an assertion if and only if tracked activations nest |
| EndToEnd.CallsOfJob | full-trace/full_trace.cpp:359-525 | exactly which logger calls a run makes: those of its intended trace, and if it does not return all that is missing are the status updates of the returns of the activations still open |
| EndToEnd.ReadBack | profile-func/trace_logger.cpp:14-21 | also for runs that do not return: a file exists exactly when a session goes to it; what follows the label map decodes to the records of its sessions, if these can be printed; and from the text of the whole file a reader gets the registered label map and these records, if and only if the map does not hold the line that ends its section |
| CleanTraces.ReadBackClean | profile-func/trace_logger.cpp:201-247 | all of that holds for every program whose names and strings have no comma and no newline, called with arguments that have none on a machine that makes none of them |
| CleanTraces.ActivationClean | full-trace/full_trace.cpp:359-525 | nothing such a program logs, at any depth, and nothing it returns holds a comma or a newline, and no operand has number 0 |
| CleanTexts.FunctionClean | full-trace/full_trace.cpp:359-452 | with clean names, strings and constants in a function, all ids and texts in the lines of all its blocks are clean, derived ids and names passed on included |
| EndToEnd.LogOfThread | profile-func/trace_logger.cpp:3-40 | one thread runs a job of the program, the other threads anything, all on disjoint file names: after any schedule in which that thread has finished its calls, its files hold the label map and then exactly the sessions of its own intended trace, and a reader gets the registered map and the records back from them |
| EndToEnd.ThreadPrefix | profile-func/trace_logger.cpp:201-247 | at every moment of every schedule, finished or not, returning or not, each file of the thread is a prefix of the label map and its intended sessions |
| EndToEnd.FileContent | profile-func/trace_logger.cpp:23-40 | writing sessions leaves in each file its earlier content, or for a new file the label map, and then the records of its own sessions in order, and touches no other file |
| TraceFile.MapRead | profile-func/trace_logger.cpp:14-21 | a reader that looks for the two section lines gets back the registered label map and what follows it, whatever that is, if and only if the map does not hold the line that ends the section |
| TraceFile.FileRead | profile-func/trace_logger.cpp:14-21 | from the text of a file with the label map and printable records the reader gets exactly that map and these records, under the same condition |
| LoggerFacts.NameCalls | profile-func/trace_logger.cpp:73-79 | naming changes nothing but the name of a trace, or makes a silent one of this name, and no file changes |
| LoggerFacts.EntryCalls | profile-func/trace_logger.cpp:201-211 | the text that an entry adds to exactly one file, a new file getting the section with the registered label map before it; without a trace a silent one of the default name appears |
| LoggerFacts.LineCalls | profile-func/trace_logger.cpp:213-347 | the text, field by field, that a header or operand adds to the open file and to no other, the header with the count before it is raised; nothing happens when the trace does not log |
| LoggerFacts.UpdateCalls | profile-func/trace_logger.cpp:158-190 | the new trace or the assertion for each case of a status update in top-level mode |
| LineTexts.LineText | profile-func/trace_logger.cpp:213-247 | the whole text that each line of the instrumented code leaves in the file: number or r or f, width, value token, register flag, name, and the block for a phi |
| LineTexts.TokenReads | full-trace/full_trace.cpp:626-673 | what the token of a line says about the value its operand has then: an integer of at most 64 bits reads as the signed 64-bit number that is equal to it modulo two to its width, an address and a vector read back, no value and a null pointer are 0, a string constant is its text |
| LineTexts.ReadHexNatText | profile-func/trace_logger.cpp:249-270 | hexadecimal addresses are read back digit by digit |
| LineTexts.DigitOrder | profile-func/trace_logger.cpp:147-154 | digits of decimal and hexadecimal numbers and of bytes stand in the usual order, on literal examples |
| Correctness.SimFunction | full-trace/full_trace.cpp:359-525 | simulation of the code, as long as the logger does not stop it: for every program, arguments, world and fuel the instrumented function ends as its trace does and has the events of its trace - states seen and calls made - in the same order; the calls are those of the nested items, with the returns of open activations missing |
| Correctness.SimBlock | full-trace/full_trace.cpp:359-452 | the same from any instruction of any block on, for any buffers of the right types |
| Preservation.SameEvents | full-trace/full_trace.cpp:359-525 | as long as the logger does not stop it, the instrumented program ends as the original one does, and its events without the inserted calls are those of the original run, also in runs that do not end |
| Preservation.RunFunction | full-trace/full_trace.cpp:359-452 | the trace semantics is a semantics of the original program: same outcome, and the same events once the inserted calls are left out |
| Preservation.SameStart | full-trace/full_trace.cpp:910-971 | annotating a block keeps its leading phis, so that entering it computes the same registers |
| InsertedCode.ExecLine | full-trace/full_trace.cpp:607-700 | one line inserted in the code logs that line with the operand's current value; a vector's shared buffer then holds exactly the operand being logged |
| InsertedCode.ExecLines | full-trace/full_trace.cpp:607-700 | any number of lines is logged in order, without any effect on registers, world and control, and all buffers keep their types |
| InsertedCode.ExecAllocations | full-trace/full_trace.cpp:1162-1182 | after the allocations at the entry every buffer of the function is there with its type |
| InsertedCode.BuffersServe | full-trace/full_trace.cpp:1153-1182 | the buffers made for some lines serve all of them, each vector finding a buffer of exactly its type, if and only if no two of the types shown share a key |
| InsertedCode.ExecUnready | full-trace/full_trace.cpp:1153-1182 | code for lines that are not all served gets stuck |
| VectorTypes.WholeBytesApart | full-trace/full_trace.cpp:1153-1160 | with elements of whole bytes that are no pointers no two types logged in a function share a key |
| VectorTypes.ClashingEntry | full-trace/full_trace.cpp:1153-1182 | if two vector parameters of different types share a key, no call of the instrumented function, tracked or not, gets past its entry |
| VectorTypes.ClashingBlock | full-trace/full_trace.cpp:1153-1182 | if two vector types logged in one block of any function share a key, no run that comes to this block returns, whatever buffers there are |
| VectorTypes.VectorsClash | full-trace/full_trace.cpp:1153-1182 | a program with parameters of types <8 x i1> and <8 x i4> that returns, and gets stuck once it is instrumented |
| AnnotationFacts.SamePhis | full-trace/full_trace.cpp:910-971 | the instrumented block starts with the phis of the annotated one: nothing is inserted among them |
| Pass.Erasure | full-trace/full_trace.cpp:359-525 | deleting the inserted nodes from any instrumented block gives back the original instructions in order |
| Pass.BuffersInFront | full-trace/full_trace.cpp:1162-1182 | at most one buffer per type key, every logged vector has one, the buffers are exactly the first nodes of the entry block, and no other node of the function allocates |
| Pass.AddBuffersProvides | full-trace/full_trace.cpp:1162-1182 | making buffers on demand keeps the earlier ones, gives every vector shown a buffer, makes none twice and none that is not needed |
| Headers.HeadersOfBlock | full-trace/full_trace.cpp:381-452 | the header lines of every instrumented block, in order, are those of its phis and then of its other traced instructions, one for each, with the id, line and opcode of that instruction; a function that is not instrumented has none |
| Headers.OneHeader | full-trace/full_trace.cpp:381-452 | an instruction that is no phi gets exactly one header, in front, if it is no invoke, no indirect call and no untraced call, and no line at all otherwise |
| FunctionContent.FunctionKnown | full-trace/full_trace.cpp:359-525 | every step of an instrumented function, in order, over its instructions, operands and types: at the entry the session of a tracked function and a line for each parameter; in each block its phis, then their lines, then each other instruction with the header and operand lines in front of it, the status update of a return, and the line of its result behind it; the ids and names known at each place; no other line is logged and no other update made |
| LineContent.InstContent | full-trace/full_trace.cpp:974-1143 | in front of a traced instruction its header, then one line for each operand that has one, from the last to the first, or for a call the function called and the arguments upwards as far as it has parameters; each line shows that operand with its number, width, value, register flag and name; behind it the line of the result, if its type is handled, with the name of a pointer that a bitcast passes on |
| LineContent.EachOperandOnce | full-trace/full_trace.cpp:974-1107 | each operand of a traced instruction, each argument of a call that the callee has a parameter for, has exactly one line with its number, which shows it, if its type is handled or it is a function or a block, and none otherwise |
| LineContent.ValueLine | full-trace/full_trace.cpp:607-700 | a value of a type that is handled has one line, which shows the value itself, the text of a string constant, or a null pointer for a pointer operand of an intrinsic; any other value has none |
| LineContent.PhiContent | full-trace/full_trace.cpp:910-971 | the lines of a phi: header, operands from the last to the first, operand k with the id of the k-th incoming block, without a value if it is an instruction's result, and the result |
| LineContent.PhiFollowed | full-trace/full_trace.cpp:936-953 | when control comes from a block, the operand that the phi takes has a line that names this block, and the value shown there is the one the phi gets |
| LineContent.EntryContent | full-trace/full_trace.cpp:495-522 | one line for each parameter of a handled type, in order, showing the parameter, numbered from 1 in a tracked function and forwarded in any other; none in main and in functions without C linkage |
| Ir.CodesTellCallees | full-trace/full_trace.cpp:979-1000 | exactly which calls show each of the special opcodes 95 to 107: those of its own function, of the listed math functions, and of all other intrinsics; every other opcode is LLVM's |
| Annotations.AnnotateFunctionInsts | full-trace/full_trace.cpp:359-452 | what is to be logged is attached to exactly the original instructions of each block |
| LineTags.InstTags | full-trace/full_trace.cpp:974-1078 | in front of an instruction there is one header and then operand lines with distinct numbers from 1 to at most one more than its arguments; behind it only a line marked as the result |
| LineTags.PhiTags | full-trace/full_trace.cpp:928-971 | the lines of a phi are its header, operand lines with distinct numbers from 1 to the number of its operands, and a line marked as the result |
| LineTags.ParameterTags | full-trace/full_trace.cpp:495-522 | parameters of a tracked function have distinct numbers from 1, those of any other function are marked as forwarded |
| LineTags.TagsReadable | profile-func/trace_logger.cpp:226-247 | numbers below 19134 print as numerals other than the header's 0, the result's r and the forwarded argument's f |
| Ir.KeysInjective | full-trace/full_trace.cpp:1153-1160 | with whole bytes and no pointers the key of a vector type determines the type |
| Ir.KeysEqual | full-trace/full_trace.cpp:1153-1160 | exactly when two vector types share a key: same count and kind, integer widths equal after rounding down to bytes |
| TracerPass.Tracer.RunOnFunction | full-trace/full_trace.cpp:306-357 | editing the blocks in place leaves exactly the instrumented function; a function without C linkage is left alone |
| TracerPass.Tracer.RunOnBasicBlock | full-trace/full_trace.cpp:359-456 | one block becomes its annotated block with the lines as inserted code, other blocks change only by new buffers, and the known names are those after the block |
| TracerPass.Tracer.RunOnInstruction | full-trace/full_trace.cpp:381-449 | one round of the loop: skipped, or lines in front of the instruction and its result in front of the next one |
| TracerPass.Tracer.RunOnFunctionEntry | full-trace/full_trace.cpp:458-525 | the entry code goes behind the buffers and in front of everything else in the entry block |
| TracerPass.Tracer.SkipBuffers | full-trace/full_trace.cpp:464-483 | the fast-forward stops exactly behind the buffers of this function |
| TracerPass.Tracer.HandlePhiNodes | full-trace/full_trace.cpp:910-971 | the lines of all phis, which LineContent.PhiContent says, go in front of the first other instruction, last operand first, without disturbing the live iterator over the phis |
| TracerPass.Tracer.HandleCallInstruction | full-trace/full_trace.cpp:974-1066 | the header with the opcode that belongs to the name of the callee, the callee, then the arguments in order, in front of the call |
| TracerPass.Tracer.HandleNonPhiNonCallInstruction | full-trace/full_trace.cpp:1068-1107 | header, then the operands from the last to the first, and for a return the status update behind them |
| TracerPass.Tracer.HandleInstructionResult | full-trace/full_trace.cpp:1109-1143 | the result line; a bitcast of a named pointer shows the pointer's name and records it for its slot |
| TracerPass.Tracer.ProcessAllocaInstruction | full-trace/full_trace.cpp:816-848 | the search from the next instruction to the terminator gives the slot of an unnamed alloca the name in the first debug declaration of that slot, and no other slot changes |
| TracerPass.Tracer.PrintParamLine | full-trace/full_trace.cpp:607-700 | one line in front of the iterator for a type that is handled, none for any other, as LineContent.ValueLine says |
| TracerPass.Tracer.CreateVectorArg | full-trace/full_trace.cpp:1162-1182 | the vector is stored into the buffer of its key, which is made at the very start of the function if it is missing, and the iterator stays valid |
| TracerPass.Tracer.GetInstId | full-trace/full_trace.cpp:787-814 | name, name known for the slot, slot, or fresh id, and the counter moves only in the last case |
| InstIds.FunctionIds | full-trace/full_trace.cpp:787-814 | the ids of all instructions without a value, in layout order: counted in each block up to the first named bitcast of a named pointer, and copies of that pointer's name from there on, in all later blocks too |
| InstIds.IdsDistinctIff | full-trace/full_trace.cpp:401-405 | they are distinct throughout a function whose blocks have different ids if and only if at most one instruction is behind such a bitcast, and then the pointer's name is none of the ids before it |
| InstIds.FunctionIdsDistinct | full-trace/full_trace.cpp:401-405 | without a named bitcast of a named pointer, one id belongs to one block and one position |
| InstIds.FunctionIdsCount | full-trace/full_trace.cpp:787-814 | under the same condition the ids of instructions without a value in a block are bbid-0, bbid-1, and so on |
| InstIds.IdsCountIff | full-trace/full_trace.cpp:787-814 | all these ids in the function are the counted ones if and only if no instruction is behind such a bitcast, or a single one whose counted id happens to be the pointer's name |
| InstIds.IdsClash | full-trace/full_trace.cpp:787-814 | once slot -1 has a name, all later instructions without a value have that name as their id |
| InstIds.NamedBitcastClash | full-trace/full_trace.cpp:1119-1123 | a function in which two instructions have the same id for that reason |
| StaticIds.BlockIdsDistinct | full-trace/full_trace.cpp:850-867 | blocks with different names or slots have different ids, whatever their loop depths, if unnamed ones have slots of at most six digits |
| StaticIds.BlockIdsEqual | full-trace/full_trace.cpp:850-867 | exactly when any two blocks, named or not, have the same id: both cut within slots whose first six digits agree, or neither cut and the same text and kept depth |
| StaticIds.BlockIdShape | full-trace/full_trace.cpp:850-867 | a named block's id is its name, a colon and at most two characters of its loop depth; an unnamed one's is slot, colon and depth as far as six characters go |
| StaticIds.ValuelessIdsDistinct | full-trace/full_trace.cpp:801-811 | an id built from a block id and a counter determines both |
| Runs.FromIdle | profile-func/trace_logger.cpp:119-141 | a complete bracketed run of any length stops at an assertion if and only if some tracked activation is nested in another, recursion included; if not, it ends with no session open |
| Runs.FromSession | profile-func/trace_logger.cpp:158-190 | inside a session: entering no tracked function keeps it, entering one ends in an assertion or loses the session |
| Runs.SessionWindow | profile-func/trace_logger.cpp:158-224 | a run without nesting writes exactly its sessions, each to one opened file, and nothing outside them |
| Runs.OpenWindow | profile-func/trace_logger.cpp:158-224 | so does a run that has not returned, the session that is still open included |
| Runs.OnlyReturnsMissing | profile-func/trace_logger.cpp:158-190 | the calls of a run that has not returned lack exactly the returns of the open activations |
| Runs.SessionBody | profile-func/trace_logger.cpp:192-247 | within a session every record is written, in order, to the session's file, also when the trace is renamed in between |
| Runs.CountersConsecutive | profile-func/trace_logger.cpp:213-224 | the header counters of a session are 0, 1, ..., n-1 without gap or repeat |
| Runs.SessionNaming | profile-func/trace_logger.cpp:73-79 | the file of each session is the last name set since the trace was last destroyed, else the default; session ends and other instrumented returns forget the name |
| Logger.StepKeepsInvariant | profile-func/trace_logger.cpp:158-224 | any single top-level call keeps: a trace that does not log is fresh, a file pointer that is set is open, open files start with the label map; and files only grow at their end |
| Logger.RunKeepsInvariant | profile-func/trace_logger.cpp:158-224 | the same for every sequence of top-level calls, bracketed or not |
| LoggerRuntime.Runtime.constructor | profile-func/trace_logger.cpp:48-56 | the main thread starts with a fresh trace of the default name, other threads without one |
| LoggerRuntime.Runtime.CreateTrace | profile-func/trace_logger.cpp:9-12 | a fresh trace that does not log, and no file changes |
| LoggerRuntime.Runtime.FinToplevel | profile-func/trace_logger.cpp:67-71 | the trace is gone, the files stay |
| LoggerRuntime.Runtime.SetTraceName | profile-func/trace_logger.cpp:73-79 | updates the objects as the step for naming says: creates or renames the trace |
| LoggerRuntime.Runtime.LogOrNotNow | profile-func/trace_logger.cpp:119-141 | the truth table of log_or_not on the current trace, with both assertions |
| LoggerRuntime.Runtime.UpdateStatus | profile-func/trace_logger.cpp:158-190 | updates the objects exactly as the step for a status update says, or stops where that step stops |
| LoggerRuntime.Runtime.OpenTraceFile | profile-func/trace_logger.cpp:23-40 | afterwards the trace has the one handle registered under its name, and the text of a file that was opened just now is the section with the registered label map |
| LoggerRuntime.Runtime.LogEntryNow | profile-func/trace_logger.cpp:201-211 | opens the file and prints the entry exactly when the trace logs |
| LoggerRuntime.Runtime.Log0Now | profile-func/trace_logger.cpp:213-224 | prints the header with the counter and then counts it, exactly when the trace logs |
| LoggerRuntime.Runtime.LogParamNow | profile-func/trace_logger.cpp:226-247 | what the five operand printers share: given the printed value, the operand is printed exactly when the trace logs |
| LoggerRuntime.Runtime.LogIntNow | profile-func/trace_logger.cpp:226-247 | the operand with the decimal text of the integer |
| LoggerRuntime.Runtime.LogPtrNow | profile-func/trace_logger.cpp:249-270 | the operand with the hexadecimal text of the address, without a prefix for zero |
| LoggerRuntime.Runtime.LogStringNow | profile-func/trace_logger.cpp:272-299 | the operand with the string itself |
| LoggerRuntime.Runtime.LogVectorNow | profile-func/trace_logger.cpp:323-347 | the operand with the hex digits of the first size/8 bytes, for any size |
| LoggerRuntime.Runtime.FinMain | profile-func/trace_logger.cpp:58-65 | every registered handle is closed exactly once more, and the trace is gone |
| Threads.ScheduleKeepsInvariant | profile-func/trace_logger.cpp:14-40 | the locking invariant holds after every schedule, content is append-only and registrations are permanent |
| Threads.OneOpening | profile-func/trace_logger.cpp:23-40 | in every interleaving a name is opened at most once, a file has the whole label map first or is still being given it under the lock, and threads with the same name share the handle; from every file with the whole section a reader gets the registered map, if that does not hold the line that ends it |
| Threads.ClosedOnce | profile-func/trace_logger.cpp:58-65 | when all threads are joined, the table that is closed names every handle ever opened, and none twice |
| Completion.Progress | profile-func/trace_logger.cpp:14-40 | no deadlock: whenever a thread that is not at an assertion has something left to do, some thread can take a step |
| Completion.ScheduleBounded | profile-func/trace_logger.cpp:14-40 | no schedule is longer than the work that its threads have to do |
| Completion.CanAlwaysFinish | profile-func/trace_logger.cpp:3-40 | if no thread running alone stops at an assertion, every schedule so far can be continued until all threads have finished, whatever file names they share |
| Isolation.NonInterference | profile-func/trace_logger.cpp:3-40 | threads with disjoint names: after any schedule a finished thread has left in its files exactly what it leaves when it runs alone |
| Isolation.AlwaysPrefix | profile-func/trace_logger.cpp:201-247 | at every moment a file holds a prefix of what its thread running alone leaves in it |
| TraceText.DecodeTrace | profile-func/trace_logger.cpp:201-247 | a parser recovers every sequence of entry, header and operand records from the printed text, given texts without comma and newline |
| TraceText.TagRoundTrip | profile-func/trace_logger.cpp:233-238 | the printed tag determines the operand number, r and f included, and is never that of a header or an entry |
| Numerals.ReadIntText | profile-func/trace_logger.cpp:221-238 | decimal numbers are read back |
| Tokens.ConvertBytesToHex | profile-func/trace_logger.cpp:147-154 | the buffer of size/4+3 characters is never overrun, and holds 0x, two digits for each byte and the terminator |
| Tokens.VectorText | profile-func/trace_logger.cpp:323-329 | for every bit size, also no multiple of 8, the printed text is the hex of the first size/8 bytes |
| Tokens.VectorTokenRoundTrip | profile-func/trace_logger.cpp:147-154 | decoding the digits gives back the bytes |
| Metadata.ChainFresh | full-trace/SlotTracker.h:376-394 | termination: a function-local node does not come back along local nodes, if no cycle is local only |
| Metadata.VisitExact | full-trace/SlotTracker.h:376-394 | from any numbering the search adds exactly the recorded nodes on paths without numbered nodes |
| Metadata.NumberingReachable | full-trace/SlotTracker.h:376-394 | from an operand-closed numbering it adds exactly the reachable recorded nodes, keeps all numbers, gives none twice, and leaves the numbering operand-closed |
| Metadata.NumberingPreorder | full-trace/SlotTracker.h:376-394 | numbers are in depth-first preorder: each new node is followed by exactly what is reachable from it through nodes not numbered before it, and this operand by operand, in the order of the operands, each operand's part being exactly what it leads to by then |
| Metadata.LocalOperandOrder | full-trace/SlotTracker.h:376-394 | a function-local node gets no number, and what its operands lead to is numbered in their order, too |
| MetadataSearch.ComesIffNoLocalCycle | full-trace/SlotTracker.h:376-394 | on any graph the recursion ends if and only if no cycle of function-local nodes only can be reached from the argument along nodes without a number |
| MetadataSearch.SearchIsVisit | full-trace/SlotTracker.h:376-394 | where there is no such cycle at all, the search that ends gives the numbering that the other results are about |
| SlotTracker.SlotTable.CreateMetadataSlot | full-trace/SlotTracker.h:376-394 | the recursive method with its map and counter numbers the nodes as the search does, densely, and terminates on cyclic graphs |
| SlotTracker.SlotTable.CreateAttributeSetSlot | full-trace/SlotTracker.h:396-406 | an attribute set gets the next number unless it has one |
| SlotTracker.SlotTable.ProcessModule | full-trace/SlotTracker.h:199-232 | numbers unnamed globals and functions, named metadata and function attributes of the module, in this order; SlotFacts.ModuleSlots and SlotReferences.ReferencesExact say which these are |
| SlotTracker.SlotTable.ProcessFunction | full-trace/SlotTracker.h:235-292 | numbers the unnamed arguments, blocks and non-void instructions in layout order from 0, and the metadata and attributes met on the way |
| SlotTracker.SlotTable.Initialize | full-trace/SlotTracker.h:187-195 | the module is processed once, the function when it was incorporated and not yet processed |
| SlotTracker.SlotTable.GetLocalSlot | full-trace/SlotTracker.h:327-335 | initialises and answers the slot in the function map, or -1 |
| SlotTracker.SlotTable.IncorporateFunction | full-trace/SlotTracker.h:81-84 | changes the function and clears nothing |
| SlotTracker.SlotTable.PurgeFunction | full-trace/SlotTracker.h:297-303 | clears the function map only |
| SlotRuns.GlobalStability | full-trace/SlotTracker.h:187-361 | over every run the global numberings only grow at their end, hold nothing twice, have the module's contents first, and stay operand-closed |
| SlotRuns.AnswersStable | full-trace/SlotTracker.h:305-344 | an answer once given for a global, a metadata node or an attribute set is given by every later query |
| SlotRuns.SlotsBijective | full-trace/SlotTracker.h:346-361 | a numbering is a bijection onto 0, ..., n-1, and everything else is answered -1 |
| SlotRuns.FunctionSlotsAreRanks | full-trace/SlotTracker.h:235-335 | over every run with a purge before each further incorporation, a query answers the number of slotted values before the asked one in layout order, or -1 if it has none |
| SlotFacts.ModuleSlots | full-trace/SlotTracker.h:199-221 | after any run with a query on a fresh tracker: a global has the number of unnamed globals before it as its slot, a function that of all unnamed globals and the unnamed functions before it, named ones and anything else have none |
| SlotFacts.FunctionSlots | full-trace/SlotTracker.h:235-259 | over runs that purge first: the unnamed arguments, the unnamed blocks and the unnamed instructions that are not void, in the order of the function - a block before its instructions - count up from 0 without gaps, and nothing else has a slot |
| SlotReferences.ReferencesExact | full-trace/SlotTracker.h:209-283 | over every run on a fresh tracker: the numbered metadata nodes are exactly the recorded nodes that can be reached from named metadata of the module, from operands of intrinsic calls or from attachments in functions that were current at a query; the numbered attribute sets are exactly those of the module's functions and of the instructions of these functions |
| SlotOrder.ModuleMetadataInOrder | full-trace/SlotTracker.h:209-216 | what can be reached from the named metadata up to any place is numbered first, in front of everything else |
| SlotOrder.ModuleAttributesInOrder | full-trace/SlotTracker.h:218-229 | so are the attribute sets of the first functions |
| SlotOrder.FunctionMetadataInOrder | full-trace/SlotTracker.h:261-283 | when a query processes a function, what can be reached from its mentions up to any place, intrinsic operands before attachments, comes right behind what had numbers before |
| SlotOrder.FunctionAttributesInOrder | full-trace/SlotTracker.h:261-278 | so do the attribute sets up to any instruction |
| SlotRuns.StaleSlots | full-trace/SlotTracker.h:81-84 | over every run, purged or not: the answers are the ranks in the current function if and only if every value that the functions processed since the last purge gave a slot is a slotted value of it |
| SlotRuns.StaleAnswer | full-trace/SlotTracker.h:81-84 | a run without a purge in which an argument of the first function is still answered for the second |
| Labels.WalkOnce | ast-pass/GetLabeledStmts.cpp:161-177 | the walk with explicit stack and recursion handles each proper descendant, null children included, exactly once |
| Labels.Extractor.VisitAllChildStmtsOf | ast-pass/GetLabeledStmts.cpp:161-177 | handles the statements below in the order of the walk |
| Labels.OneTarget | ast-pass/GetLabeledStmts.cpp:130-141 | a label stands for exactly one line: that of the end of the chain along its substatements, all labels up to that end |
| Labels.WalkInside | ast-pass/GetLabeledStmts.cpp:161-177 | what the walk handles is exactly what is inside the body, at any depth, on a path from statement to child |
| Labels.Extractor.HandleIfLabelStmt | ast-pass/GetLabeledStmts.cpp:130-141 | a label is mapped to the line that ends the chain along its substatements, the first that is no label; anything else is ignored |
| Labels.Extractor.HandleIfCallExpr | ast-pass/GetLabeledStmts.cpp:148-159 | a direct call outside main makes the function a caller of the callee, anything else is ignored |
| Labels.Extractor.VisitFunctionDecl | ast-pass/GetLabeledStmts.cpp:180-198 | visits functions with a body that are no methods, and marks inlined ones |
| LabelFacts.LabelsExact | ast-pass/GetLabeledStmts.cpp:113-141 | with unique labels the final map has exactly the labels inside the bodies of the visited functions, each with the line at the end of its chain of substatements, which are labels up to that end |
| LabelFacts.CallersExact | ast-pass/GetLabeledStmts.cpp:148-198 | the callers of a function are exactly the visited functions other than main that call it directly; inlined is exactly what a visited declaration says |
| LabelFacts.VisitKeepsKeys | ast-pass/GetLabeledStmts.cpp:180-198 | every recorded caller has an entry of its own |
| InlinedCallers.FindAllNoninlinedCallers | ast-pass/GetLabeledStmts.cpp:254-270 | terminates without an inlined cycle, and appends each function that is not inlined once for each call path from it to the leaf through inlined functions only |
| InlinedCallers.EndsIffNoCycle | ast-pass/GetLabeledStmts.cpp:254-270 | the recursion ends if and only if no inlined function it can come to is its own caller through inlined ones |
| InlinedCallers.ClimbStaysInMap | ast-pass/GetLabeledStmts.cpp:254-270 | the lookups of the search never add an entry to the map |

## Left out

- EndToEnd.LogOfThread: the threads' computations do not act on each other's world; only the logger is shared between them. Nor does an assertion in one thread end the others: schedules are considered as long as their steps can be taken.
- Correctness.SimFunction: the logger does not stop the code here; Processes.SameMeaning adds that.
- Correctness.SimBlock: the same.
- CallGraph.NeverAborted: the condition is sufficient; a program whose call graph has such a path may still never take it.
- Functions outside the program do not call back into it, as `qsort` or `pthread_create` would.
- TraceFile.MapRead: a label map that holds the line that ends its section is cut there by any reader that looks for this line.
- EndToEnd.ReadBack: needs texts without comma and newline, as string constants and user names can hold both; CleanTraces.ReadBackClean derives it from the program.
- LoggerRuntime.Runtime.LogParamNow: gets the value as printed; the printers for integers, pointers, strings and vectors compute it, that for doubles is not modelled.
- TraceText.DecodeTrace: a value is recovered as the printed token; LineTexts.TokenReads reads integers, addresses and vectors from it, doubles and strings are opaque.
- LineTexts.TokenReads: integers of more than 64 bits, for which zero extension to 64 bits is no valid instruction, and operands whose value is not of their type.
- StaticIds.BlockIdsDistinct: a block whose name is the numeral of an unnamed block's slot is excluded, as both have the same text.
- Non-top-level mode: the rules of `log_or_not` for it are modelled, but no inserted call opens the trace file there, so that there are no sessions to speak about.
- Failing to open a file, compression, closing order, messages on standard output and process exit codes.
- Fixed-size buffers for names and ids, the 64-bit width of the instruction counter, and the printing of doubles.
- TracerPass.Tracer.HandleCallInstruction: LLVM's own opcode of a call, shown for functions without a special one, is a number that the instruction carries.
- The table of traced intrinsics and the fixed-point opcodes: an instruction carries its opcode and whether its callee is listed.
- Which names the debug information gives to values other than allocas, line numbers, loop depths and the slots used by the pass (it asks LLVM's own slot tracker): all of them are inputs.
- The cache of global string constants, which changes no call of the logger.
- Stack addresses: the buffers are kept apart from the world, so that allocating them does not move other allocas.
- Invokes and exceptions (the pass skips them; running one gets stuck in the model), landing pads, extra arguments of variadic calls, and warnings about types that are not handled.
- Source assertions that an operand has a name or a slot: the model gives such an operand the id of an empty block instead of stopping.
- `setjmp`, signals and calls of `exit` inside traced functions: a call either returns or the run stops.
- Writing, reading and deleting the label map file, and environment variables.
