/**
 The runtime logger of one thread (profile-func/trace_logger.cpp): what each call of the
 logger does to the thread's trace, as functions. `Handle` stands for gzFile, so that the
 same rules drive the sequential logger (`LoggerState`) and the threads (`Threads`).
 */
module Logger {
  import opened Wrappers
  import opened TraceText

  const RET_OP := 1
  const DEFAULT_TRACE_NAME := "dynamic_trace.gz"

  datatype LoggingStatus = LogAndContinue | DoNotLog

  /** trace_info; `file` is None until open_trace_file sets it. */
  datatype Info<Handle> = Info(name: string, file: Option<Handle>, count: nat, toplevel: string, status: LoggingStatus)

  /** The calls that instrumented code and the user make. */
  datatype Call =
    | SetName(name: string)
    | Update(func: string, opcode: int, tracked: bool, toplevelMode: bool)
    | LogEntry(func: string, nparams: int)
    | Log0(line: int, func: string, bb: string, inst: string, opcode: int)
    | LogParam(tag: int, size: int, token: string, isReg: bool, regLabel: string, isPhi: bool, prev: string)

  /** Why a call does not return: the two assertions of log_or_not, or a write to a file
      pointer that was never set. */
  datatype Stop = ReturnBeforeCall | NestedToplevel | NoFile

  function NewTrace<Handle>(name: string): Info<Handle> {
    Info(name, None, 0, "", DoNotLog)
  }

  function LogOrNot<Handle>(i: Info<Handle>, c: Call): Result<LoggingStatus, Stop>
    requires c.Update?
  {
    if !c.toplevelMode then Ok(if c.tracked then LogAndContinue else DoNotLog)
    else if !c.tracked then Ok(i.status)
    else if c.opcode != RET_OP then Ok(LogAndContinue)
    else if |i.toplevel| == 0 then Err(ReturnBeforeCall)
    else if c.func == i.toplevel then Ok(DoNotLog)
    else Err(NestedToplevel)
  }

  /** What a call does: change the thread's trace only, print a record to the open file,
      or open the trace file under the lock and then print. */
  datatype Action<Handle> =
    | Silent(trace: Option<Info<Handle>>)
    | Print(trace: Option<Info<Handle>>, file: Handle, record: Record)
    | OpenPrint(info: Info<Handle>, record: Record)
    | Halt(stop: Stop)

  function UpdateStatus<Handle>(trace: Option<Info<Handle>>, c: Call): Action<Handle>
    requires c.Update?
  {
    if trace.None? && !c.tracked then Silent(None)
    else
      var i := trace.GetOr(NewTrace(DEFAULT_TRACE_NAME));
      match LogOrNot(i, c)
      case Err(e) => Halt(e)
      case Ok(status) =>
        if |i.toplevel| == 0 && status == LogAndContinue then
          Silent(Some(i.(status := status, toplevel := c.func)))
        else if status == DoNotLog then Silent(None)
        else Silent(Some(i.(status := status)))
  }

  function RecordOf(c: Call, count: nat): Record
    requires c.Log0? || c.LogParam?
  {
    match c
    case Log0(line, f, bb, inst, op) => Header(line, f, bb, inst, op, count)
    case LogParam(tag, size, token, isReg, regLabel, isPhi, prev) =>
      Operand(tag, size, token, if isReg then Some(regLabel) else None, if isPhi then Some(prev) else None)
  }

  function HeaderCount(c: Call): nat {
    if c.Log0? then 1 else 0
  }

  function Act<Handle>(trace: Option<Info<Handle>>, c: Call): Action<Handle> {
    match c
    case SetName(n) =>
      Silent(Some(if trace.None? then NewTrace(n) else trace.value.(name := n)))
    case Update(_, _, _, _) => UpdateStatus(trace, c)
    case LogEntry(f, n) =>
      var i := trace.GetOr(NewTrace(DEFAULT_TRACE_NAME));
      if i.status == DoNotLog then Silent(Some(i)) else OpenPrint(i, Entry(f, n))
    case _ =>
      if trace.None? || trace.value.status == DoNotLog then Silent(trace)
      else if trace.value.file.None? then Halt(NoFile)
      else
        var i := trace.value;
        Print(Some(i.(count := i.count + HeaderCount(c))), i.file.value, RecordOf(c, i.count))
  }

  /** The three writes of write_labelmap. */
  function LabelMapPieces(labelMap: string): (ps: seq<string>)
    ensures |ps| == 3
  {
    ["%%%% LABEL MAP START %%%%\n", labelMap, "%%%% LABEL MAP END %%%%\n\n"]
  }

  // ---------- one thread running alone ----------

  /** The trace of the thread and the content of every file opened so far. A handle is the
      name it was opened under, since gz_files holds one handle per name. */
  datatype State = State(trace: Option<Info<string>>, files: map<string, seq<string>>)

  /** The file's content once open_trace_file has returned. */
  function Opened(labelMap: string, files: map<string, seq<string>>, name: string): seq<string> {
    if name in files then files[name] else LabelMapPieces(labelMap)
  }

  function Step(labelMap: string, s: State, c: Call): Result<State, Stop> {
    match Act(s.trace, c)
    case Silent(t) => Ok(State(t, s.files))
    case Print(t, f, r) =>
      if f in s.files then Ok(State(t, s.files[f := s.files[f] + Pieces(r)])) else Err(NoFile)
    case OpenPrint(i, r) =>
      Ok(State(Some(i.(file := Some(i.name))),
               s.files[i.name := Opened(labelMap, s.files, i.name) + Pieces(r)]))
    case Halt(e) => Err(e)
  }

  function Run(labelMap: string, s: State, calls: seq<Call>): Result<State, Stop>
    decreases calls
  {
    if calls == [] then Ok(s)
    else match Step(labelMap, s, calls[0])
         case Err(e) => Err(e)
         case Ok(s') => Run(labelMap, s', calls[1..])
  }

  lemma {:induction false} RunAppend(labelMap: string, s: State, a: seq<Call>, b: seq<Call>)
    ensures Run(labelMap, s, a + b) ==
            match Run(labelMap, s, a) { case Err(e) => Err(e) case Ok(m) => Run(labelMap, m, b) }
    decreases a
  {
    if a == [] {
      assert a + b == b;
    } else {
      assert (a + b)[1..] == a[1..] + b;
      match Step(labelMap, s, a[0])
      case Err(_) =>
      case Ok(m) => RunAppend(labelMap, m, a[1..], b);
    }
  }

  // ---------- what every run keeps ----------

  /** A trace that does not log is fresh: nothing counted, no top-level function. */
  ghost predicate FreshUnlessLogging<Handle>(trace: Option<Info<Handle>>) {
    trace.Some? && trace.value.status == DoNotLog ==>
      trace.value.count == 0 && trace.value.toplevel == "" && trace.value.file == None
  }

  ghost predicate ToplevelMode(c: Call) {
    c.Update? ==> c.toplevelMode
  }

  /** The three facts every top-level run keeps: a trace that does not log is fresh, a file
      pointer that is set is open, and every open file starts with the whole label map. */
  ghost predicate Invariant(labelMap: string, s: State) {
    && FreshUnlessLogging(s.trace)
    && (s.trace.Some? && s.trace.value.file.Some? ==> s.trace.value.file.value in s.files)
    && (forall f <- s.files :: LabelMapPieces(labelMap) <= s.files[f])
  }

  ghost predicate Extends(old_: map<string, seq<string>>, new_: map<string, seq<string>>) {
    forall f <- old_ :: f in new_ && old_[f] <= new_[f]
  }

  lemma StepKeepsInvariant(labelMap: string, s: State, c: Call)
    requires Invariant(labelMap, s) && ToplevelMode(c)
    requires Step(labelMap, s, c).Ok?
    ensures Invariant(labelMap, Step(labelMap, s, c).value)
    ensures Extends(s.files, Step(labelMap, s, c).value.files)
  {
  }

  /** For any sequence of top-level calls, bracketed or not: the invariant holds throughout
      and files only grow at their end. */
  lemma {:induction false} RunKeepsInvariant(labelMap: string, s: State, calls: seq<Call>)
    requires Invariant(labelMap, s)
    requires forall c <- calls :: ToplevelMode(c)
    requires Run(labelMap, s, calls).Ok?
    ensures Invariant(labelMap, Run(labelMap, s, calls).value)
    ensures Extends(s.files, Run(labelMap, s, calls).value.files)
    decreases calls
  {
    if calls != [] {
      StepKeepsInvariant(labelMap, s, calls[0]);
      RunKeepsInvariant(labelMap, Step(labelMap, s, calls[0]).value, calls[1..]);
    }
  }
}
