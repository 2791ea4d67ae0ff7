/**
 What each call does to the trace of a thread and to the text of the files, case by case
 (profile-func/trace_logger.cpp:14-40, 73-139, 156-247).
 */
module LoggerFacts {
  import opened Wrappers
  import opened Numerals
  import opened TraceText
  import opened TraceFile
  import opened Logger
  import opened LineTexts

  /** The text of a file; a file that is not open yet is about to start with the label map. */
  function TextOf(labelMap: string, files: map<string, seq<string>>, name: string): string {
    if name in files then Concat(files[name]) else MAP_START + labelMap + MAP_END
  }

  ghost predicate OthersSame(name: string, before: map<string, seq<string>>, after: map<string, seq<string>>) {
    && name in after && (forall f :: f != name ==> (f in after <==> f in before))
    && (forall f <- before :: f != name ==> after[f] == before[f])
  }

  predicate Quiet<Handle>(trace: Option<Info<Handle>>) {
    trace.None? || trace.value.status.DoNotLog?
  }

  lemma OpenedText(labelMap: string, files: map<string, seq<string>>, name: string)
    ensures Concat(Opened(labelMap, files, name)) == TextOf(labelMap, files, name)
  {
    if name !in files {
      HeadedText(labelMap, LabelMapPieces(labelMap));
    }
  }

  /** Naming: an existing trace keeps everything else, a new one does not log. */
  lemma NameCalls(labelMap: string, s: State, name: string)
    ensures var r := Step(labelMap, s, SetName(name));
            && r.Ok? && r.value.files == s.files && r.value.trace.Some? && r.value.trace.value.name == name
            && (s.trace.Some? ==> r.value.trace.value == s.trace.value.(name := name))
            && (s.trace.None? ==> r.value.trace == Some(Info(name, None, 0, "", DoNotLog)))
  {
  }

  /** An entry: with a trace that logs, its file gets the text of the entry, and a new file the label map
      before that. With none, a silent trace of the default name appears. */
  lemma EntryCalls(labelMap: string, s: State, func: string, nparams: int)
    ensures var r := Step(labelMap, s, LogEntry(func, nparams));
            && r.Ok?
            && (s.trace.None? ==>
                  r.value == State(Some(Info("dynamic_trace.gz", None, 0, "", DoNotLog)), s.files))
            && (s.trace.Some? && s.trace.value.status.DoNotLog? ==> r.value == s)
            && (!Quiet(s.trace) ==>
                  var name := s.trace.value.name;
                  && r.value.trace == Some(s.trace.value.(file := Some(name)))
                  && OthersSame(name, s.files, r.value.files)
                  && Concat(r.value.files[name])
                     == TextOf(labelMap, s.files, name) + ("\nentry," + func + "," + IntText(nparams) + ",\n"))
  {
    if !Quiet(s.trace) {
      var name := s.trace.value.name;
      OpenedText(labelMap, s.files, name);
      EntryText(func, nparams);
      ConcatAppend(Opened(labelMap, s.files, name), Pieces(Entry(func, nparams)));
    }
  }

  /** Headers and operands: without a trace that logs, nothing happens. Otherwise the text goes to the
      end of the file that is open, and a header shows the count, which it then raises by one. */
  lemma LineCalls(labelMap: string, s: State, c: Call)
    requires c.Log0? || c.LogParam?
    ensures Quiet(s.trace) ==> Step(labelMap, s, c) == Ok(s)
    ensures !Quiet(s.trace) && s.trace.value.file.Some? && s.trace.value.file.value in s.files ==>
              var r, i := Step(labelMap, s, c), s.trace.value;
              && r.Ok? && r.value.trace == Some(i.(count := if c.Log0? then i.count + 1 else i.count))
              && OthersSame(i.file.value, s.files, r.value.files)
              && Concat(r.value.files[i.file.value])
                 == Concat(s.files[i.file.value])
                    + match c {
                        case Log0(line, func, bb, inst, opcode) =>
                          "\n0," + IntText(line) + "," + func + "," + bb + "," + inst + "," + IntText(opcode) + ","
                          + IntText(i.count) + "\n"
                        case LogParam(tag, size, token, isReg, name, isPhi, prev) =>
                          (if tag == 19134 then "r" else if tag == 24601 then "f" else IntText(tag)) + ","
                          + IntText(size) + "," + token + "," + (if isReg then "1," + name else "0, ")
                          + (if isPhi then "," + prev + ",\n" else ",\n")
                      }
  {
    if !Quiet(s.trace) && s.trace.value.file.Some? && s.trace.value.file.value in s.files {
      var i := s.trace.value;
      ConcatAppend(s.files[i.file.value], Pieces(RecordOf(c, i.count)));
      match c
      case Log0(line, func, bb, inst, opcode) => HeaderText(line, func, bb, inst, opcode, i.count);
      case LogParam(tag, size, token, isReg, name, isPhi, prev) =>
        OperandText(tag, size, token, isReg, name, isPhi, prev, i.count);
    }
  }

  /**
   Status updates in top-level mode; no file changes. An untracked function ends a trace that does not
   log. Entering a tracked function makes the trace log, and a trace that logs without a top level
   gets the function as its top level. A return from the top level ends the trace; a return from
   another tracked function, or before any was entered, stops at an assertion.
   */
  lemma UpdateCalls(labelMap: string, s: State, func: string, opcode: int, tracked: bool)
    ensures var r := Step(labelMap, s, Update(func, opcode, tracked, true));
            var i := if s.trace.Some? then s.trace.value else Info("dynamic_trace.gz", None, 0, "", DoNotLog);
            var top := if i.toplevel == "" then func else i.toplevel;
            if tracked && opcode == 1 then
              if i.toplevel == "" then r == Err(ReturnBeforeCall)
              else if func == i.toplevel then r == Ok(State(None, s.files))
              else r == Err(NestedToplevel)
            else if tracked then r == Ok(State(Some(i.(status := LogAndContinue, toplevel := top)), s.files))
            else if Quiet(s.trace) then r == Ok(State(None, s.files))
            else r == Ok(State(Some(i.(toplevel := top)), s.files))
  {
  }
}
