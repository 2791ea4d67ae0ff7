/**
 The logger as the program runs it: trace objects and open files that the calls update in
 place (profile-func/trace_logger.cpp, trace_logger.h). Every method is proved to do to the
 abstract state what `Logger.Step` says.
 */
module LoggerRuntime {
  import opened Wrappers
  import opened Numerals
  import opened TraceText
  import opened TraceFile
  import opened Tokens
  import opened Logger

  /** A gzFile: what was written to it, and how often it was closed. */
  class GzFile {
    const path: string
    var content: seq<string>
    var closes: nat

    constructor (path: string)
      ensures this.path == path && content == [] && closes == 0
    {
      this.path := path;
      content := [];
      closes := 0;
    }

    method Write(piece: string)
      modifies this`content
      ensures content == old(content) + [piece]
    {
      content := content + [piece];
    }
  }

  class TraceInfo {
    var name: string
    var file: GzFile?
    var count: nat
    var toplevel: string
    var status: LoggingStatus

    constructor (name: string)
      ensures this.name == name && file == null && count == 0 && toplevel == "" && status == DoNotLog
    {
      this.name := name;
      file := null;
      count := 0;
      toplevel := "";
      status := DoNotLog;
    }
  }

  class Runtime {
    var trace: TraceInfo?
    var gzFiles: map<string, GzFile>
    const labelMap: string

    ghost predicate Valid()
      reads this, trace, gzFiles.Values
    {
      && (forall n <- gzFiles :: gzFiles[n].path == n)
      && (trace != null && trace.file != null ==>
            trace.file.path in gzFiles && gzFiles[trace.file.path] == trace.file)
    }

    ghost function TraceView(): Option<Info<string>>
      reads this, trace
    {
      if trace == null then None
      else Some(Info(trace.name, if trace.file == null then None else Some(trace.file.path),
                     trace.count, trace.toplevel, trace.status))
    }

    ghost function View(): State
      reads this, trace, gzFiles.Values
    {
      State(TraceView(), map n | n in gzFiles :: gzFiles[n].content)
    }

    /** The objects that later calls may change: the ones of before, or new ones. */
    twostate predicate OnlyNewObjects()
      reads this
    {
      && (trace != null ==> trace == old(trace) || fresh(trace))
      && (forall n <- gzFiles :: (n in old(gzFiles) && gzFiles[n] == old(gzFiles)[n]) || fresh(gzFiles[n]))
    }

    /** Started by trace_logger_init in the main thread; other threads start without a trace. */
    constructor (labelMap: string, isMain: bool)
      ensures Valid() && this.labelMap == labelMap
      ensures View() == State(if isMain then Some(NewTrace(DEFAULT_TRACE_NAME)) else None, map[])
      ensures trace != null ==> fresh(trace)
    {
      this.labelMap := labelMap;
      gzFiles := map[];
      trace := null;
      new;
      if isMain {
        CreateTrace(DEFAULT_TRACE_NAME);
      }
    }

    method CreateTrace(name: string)
      requires Valid() && trace == null
      modifies this`trace
      ensures Valid() && OnlyNewObjects() && trace != null && fresh(trace)
      ensures View() == old(View()).(trace := Some(NewTrace(name)))
    {
      trace := new TraceInfo(name);
    }

    method FinToplevel()
      requires Valid()
      modifies this`trace
      ensures Valid() && OnlyNewObjects() && trace == null
      ensures View() == old(View()).(trace := None)
    {
      trace := null;
    }

    method SetTraceName(name: string)
      requires Valid()
      modifies this, trace
      ensures Valid() && OnlyNewObjects()
      ensures Step(labelMap, old(View()), SetName(name)) == Ok(View())
    {
      if trace == null {
        CreateTrace(name);
      } else {
        trace.name := name;
      }
      assert View().files == old(View()).files;
    }

    /** The truth table of log_or_not, with its two assertions as error results. */
    method LogOrNotNow(toplevelMode: bool, tracked: bool, opcode: int, func: string)
      returns (r: Result<LoggingStatus, Stop>)
      requires trace != null
      ensures r == LogOrNot(TraceView().value, Update(func, opcode, tracked, toplevelMode))
    {
      if !toplevelMode {
        return Ok(if tracked then LogAndContinue else DoNotLog);
      }
      if !tracked {
        return Ok(trace.status);
      }
      if opcode != RET_OP {
        return Ok(LogAndContinue);
      }
      if |trace.toplevel| == 0 {
        return Err(ReturnBeforeCall);
      }
      if func == trace.toplevel {
        return Ok(DoNotLog);
      }
      return Err(NestedToplevel);
    }

    /** Records the new status; the end of a session ends the trace. */
    method SetStatus(func: string, status: LoggingStatus)
      requires Valid() && trace != null
      modifies this`trace, trace
      ensures Valid() && OnlyNewObjects()
      ensures var i := old(TraceView()).value;
              View() == old(View()).(trace := if |i.toplevel| == 0 && status == LogAndContinue
                                              then Some(i.(status := status, toplevel := func))
                                              else if status == DoNotLog then None
                                              else Some(i.(status := status)))
    {
      trace.status := status;
      if |trace.toplevel| == 0 && trace.status == LogAndContinue {
        trace.toplevel := func;
      } else if trace.status == DoNotLog {
        trace.toplevel := "";
        FinToplevel();
      }
      assert View().files == old(View()).files;
    }

    method UpdateStatus(func: string, opcode: int, tracked: bool, toplevelMode: bool) returns (stop: Option<Stop>)
      requires Valid()
      modifies this, trace
      ensures var r := Step(labelMap, old(View()), Update(func, opcode, tracked, toplevelMode));
              if stop.None? then Valid() && OnlyNewObjects() && r == Ok(View()) else r == Err(stop.value)
    {
      if trace == null {
        if !tracked {
          return None;
        }
        CreateTrace(DEFAULT_TRACE_NAME);
      }
      var status := LogOrNotNow(toplevelMode, tracked, opcode, func);
      if status.Err? {
        return Some(status.error);
      }
      SetStatus(func, status.value);
      return None;
    }

    predicate Silenced()
      reads this, trace
    {
      trace == null || trace.status == DoNotLog
    }

    method WriteLabelMap(file: GzFile)
      modifies file`content
      ensures file.content == old(file.content) + [MAP_START, labelMap, MAP_END]
    {
      file.Write("%%%% LABEL MAP START %%%%\n");
      file.Write(labelMap);
      file.Write("%%%% LABEL MAP END %%%%\n\n");
    }

    /** Looks the name up, or opens the file, registers it and writes the label map. */
    method OpenTraceFile()
      requires Valid() && trace != null
      modifies this`gzFiles, trace`file
      ensures Valid() && OnlyNewObjects() && trace.file != null
      ensures trace.name in gzFiles && trace.file == gzFiles[trace.name]
      ensures View() == State(Some(old(TraceView()).value.(file := Some(trace.name))),
                              old(View()).files[trace.name := Opened(labelMap, old(View()).files, trace.name)])
      ensures trace.name !in old(gzFiles) ==> Concat(trace.file.content) == MAP_START + labelMap + MAP_END
    {
      if trace.name in gzFiles {
        trace.file := gzFiles[trace.name];
        assert View().files == old(View()).files;
      } else {
        var file := new GzFile(trace.name);
        gzFiles := gzFiles[trace.name := file];
        trace.file := file;
        WriteLabelMap(file);
        assert file.content == LabelMapPieces(labelMap);
        HeadedText(labelMap, file.content);
        assert View().files == old(View()).files[trace.name := LabelMapPieces(labelMap)];
      }
    }

    /** Prints the pieces of a record to the open file, one write each. */
    method Print(record: Record)
      requires Valid() && trace != null && trace.file != null
      modifies trace.file`content
      ensures Valid() && OnlyNewObjects()
      ensures View() == old(View()).(
                          files := old(View()).files[trace.file.path := old(trace.file.content) + Pieces(record)])
    {
      var pieces := Pieces(record);
      ghost var before := trace.file.content;
      for i := 0 to |pieces|
        invariant Valid()
        invariant trace.file.content == before + pieces[..i]
        invariant forall n <- gzFiles :: gzFiles[n] != trace.file ==> gzFiles[n].content == old(gzFiles[n].content)
      {
        trace.file.Write(pieces[i]);
        assert pieces[..i + 1] == pieces[..i] + [pieces[i]];
      }
      assert pieces[..|pieces|] == pieces;
    }

    /** Opens the file of the trace, if it is not open yet, and prints the record. */
    method OpenAndPrint(record: Record)
      requires Valid() && trace != null
      modifies this`gzFiles, trace`file, gzFiles.Values`content
      ensures Valid() && OnlyNewObjects()
      ensures View() == State(Some(old(TraceView()).value.(file := Some(trace.name))),
                              old(View()).files[trace.name :=
                                Opened(labelMap, old(View()).files, trace.name) + Pieces(record)])
    {
      OpenTraceFile();
      ghost var files := View().files;
      Print(record);
      assert View().files == files[trace.name := files[trace.name] + Pieces(record)];
    }

    method LogEntryNow(func: string, nparams: int)
      requires Valid()
      modifies this, trace, gzFiles.Values
      ensures Valid() && OnlyNewObjects()
      ensures Step(labelMap, old(View()), LogEntry(func, nparams)) == Ok(View())
    {
      if trace == null {
        CreateTrace(DEFAULT_TRACE_NAME);
      }
      if Silenced() {
        return;
      }
      OpenAndPrint(Entry(func, nparams));
    }

    method Log0Now(line: int, func: string, bb: string, inst: string, opcode: int) returns (stop: Option<Stop>)
      requires Valid()
      modifies this, trace, gzFiles.Values
      ensures var r := Step(labelMap, old(View()), Log0(line, func, bb, inst, opcode));
              if stop.None? then Valid() && OnlyNewObjects() && r == Ok(View()) else r == Err(stop.value)
    {
      if Silenced() {
        return None;
      }
      if trace.file == null {
        return Some(NoFile);
      }
      Print(Header(line, func, bb, inst, opcode, trace.count));
      ghost var files := View().files;
      trace.count := trace.count + 1;
      assert View().files == files;
      return None;
    }

    /** What the five operand printers have in common: they differ only in how they format the value. */
    method LogParamNow(tag: int, size: int, token: string, isReg: bool, regLabel: string, isPhi: bool, prev: string)
      returns (stop: Option<Stop>)
      requires Valid()
      modifies this, trace, gzFiles.Values
      ensures var r := Step(labelMap, old(View()), LogParam(tag, size, token, isReg, regLabel, isPhi, prev));
              if stop.None? then Valid() && OnlyNewObjects() && r == Ok(View()) else r == Err(stop.value)
    {
      if Silenced() {
        return None;
      }
      if trace.file == null {
        return Some(NoFile);
      }
      Print(Operand(tag, size, token, if isReg then Some(regLabel) else None, if isPhi then Some(prev) else None));
      return None;
    }

    /** "%ld". */
    method LogIntNow(tag: int, size: int, value: int, isReg: bool, regLabel: string, isPhi: bool, prev: string)
      returns (stop: Option<Stop>)
      requires Valid()
      modifies this, trace, gzFiles.Values
      ensures var token := Token(IntV(value));
              var r := Step(labelMap, old(View()), LogParam(tag, size, token, isReg, regLabel, isPhi, prev));
              if stop.None? then Valid() && OnlyNewObjects() && r == Ok(View()) else r == Err(stop.value)
    {
      stop := LogParamNow(tag, size, IntText(value), isReg, regLabel, isPhi, prev);
    }

    /** "%#llx", which puts no prefix in front of zero. */
    method LogPtrNow(tag: int, size: int, value: nat, isReg: bool, regLabel: string, isPhi: bool, prev: string)
      returns (stop: Option<Stop>)
      requires Valid()
      modifies this, trace, gzFiles.Values
      ensures var token := Token(PtrV(value));
              var r := Step(labelMap, old(View()), LogParam(tag, size, token, isReg, regLabel, isPhi, prev));
              if stop.None? then Valid() && OnlyNewObjects() && r == Ok(View()) else r == Err(stop.value)
    {
      var token := "0";
      if value != 0 {
        token := "0x" + HexNat(value);
      }
      stop := LogParamNow(tag, size, token, isReg, regLabel, isPhi, prev);
    }

    /** Strings are printed as they are. */
    method LogStringNow(tag: int, size: int, value: string, isReg: bool, regLabel: string, isPhi: bool, prev: string)
      returns (stop: Option<Stop>)
      requires Valid()
      modifies this, trace, gzFiles.Values
      ensures var token := Token(StrV(value));
              var r := Step(labelMap, old(View()), LogParam(tag, size, token, isReg, regLabel, isPhi, prev));
              if stop.None? then Valid() && OnlyNewObjects() && r == Ok(View()) else r == Err(stop.value)
    {
      stop := LogParamNow(tag, size, value, isReg, regLabel, isPhi, prev);
    }

    /** The bytes of a vector go through the hex conversion, into a buffer on the stack. */
    method LogVectorNow(tag: int, size: nat, value: array<Byte>, isReg: bool, regLabel: string, isPhi: bool,
                        prev: string)
      returns (stop: Option<Stop>)
      requires Valid() && size / 8 <= value.Length
      modifies this, trace, gzFiles.Values
      ensures var token := Token(VecV(old(value[..size / 8])));
              var r := Step(labelMap, old(View()), LogParam(tag, size, token, isReg, regLabel, isPhi, prev));
              if stop.None? then Valid() && OnlyNewObjects() && r == Ok(View()) else r == Err(stop.value)
    {
      if Silenced() {
        return None;
      }
      ghost var before := View();
      var token := VectorText(value, size);
      assert View() == before;
      stop := LogParamNow(tag, size, token, isReg, regLabel, isPhi, prev);
    }

    /** At the exit of main: ends the trace and closes every file that was opened, once. */
    method FinMain()
      requires Valid()
      modifies this`trace, gzFiles.Values`closes
      ensures Valid() && trace == null
      ensures View() == old(View()).(trace := None)
      ensures forall n <- gzFiles :: gzFiles[n].closes == old(gzFiles[n].closes) + 1
    {
      if trace != null {
        FinToplevel();
      }
      CloseFiles();
    }

    method CloseFiles()
      requires Valid() && trace == null
      modifies gzFiles.Values`closes
      ensures Valid() && View() == old(View())
      ensures forall n <- gzFiles :: gzFiles[n].closes == old(gzFiles[n].closes) + 1
    {
      var left := gzFiles.Keys;
      while left != {}
        invariant Valid() && left <= gzFiles.Keys && View() == old(View())
        invariant forall n <- gzFiles :: gzFiles[n].closes == old(gzFiles[n].closes) + if n in left then 0 else 1
        decreases |left|
      {
        var n :| n in left;
        gzFiles[n].closes := gzFiles[n].closes + 1;
        left := left - {n};
      }
    }
  }
}
