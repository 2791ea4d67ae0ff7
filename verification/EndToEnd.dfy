/**
 From source program to trace file: the log of an instrumented program is the intended trace,
 cut to its tracked activations, and it can be read back - in one thread and in many.
 */
module EndToEnd {
  import opened Wrappers
  import opened Sequences
  import opened TraceText
  import opened TraceFile
  import opened Tokens
  import opened Logger
  import opened Runs
  import opened Walks
  import opened Ir
  import opened Annotations
  import opened Semantics
  import opened AnnotationFacts
  import opened Correctness
  import Threads
  import Isolation

  // ---------- traces are well-formed runs ----------

  lemma {:induction false} WellFormedAppend(a: seq<Item>, b: seq<Item>)
    ensures WellFormed(a + b) <==> WellFormed(a) && WellFormed(b)
    decreases a
  {
    if a == [] {
      assert a + b == b;
    } else {
      assert (a + b)[1..] == a[1..] + b;
      WellFormedAppend(a[1..], b);
    }
  }

  lemma {:induction false} EmitsWellFormed<W>(m: Machine<W>, fr: Frame, ls: seq<Line>)
    ensures WellFormed(Emits(m, fr, ls))
    decreases ls
  {
    if ls != [] {
      EmitsWellFormed(m, fr, ls[1..]);
      assert Emits(m, fr, ls)[1..] == Emits(m, fr, ls[1..]);
    }
  }

  lemma LinesThenWellFormed<W>(m: Machine<W>, fr: Frame, ls: seq<Line>, t: Trace<W>)
    requires WellFormed(t.items)
    ensures WellFormed(PrefixedT(Emits(m, fr, ls), t).items)
  {
    EmitsWellFormed(m, fr, ls);
    WellFormedAppend(Emits(m, fr, ls), t.items);
  }

  lemma {:induction false} BlockWellFormed<W>(m: Machine<W>, s: Source, fuel: nat, f: Func, at: nat, fr: Frame,
                                              anns: seq<Annotated>, w: W)
    requires GoodSource(s)
    ensures WellFormed(TraceBlock(m, s, fuel, f, at, fr, anns, w).items)
    decreases fuel, 2 + |anns|, 0
  {
    if anns != [] {
      var a := anns[0];
      InstWellFormed(m, s, fuel, f, at, fr, a.inst, a.after, anns[1..], w);
      LinesThenWellFormed(m, fr, a.before, TraceInst(m, s, fuel, f, at, fr, a.inst, a.after, anns[1..], w));
    }
  }

  lemma {:induction false} InstWellFormed<W>(m: Machine<W>, s: Source, fuel: nat, f: Func, at: nat, fr: Frame, i: Inst,
                                             after: seq<Line>, rest: seq<Annotated>, w: W)
    requires GoodSource(s)
    ensures WellFormed(TraceInst(m, s, fuel, f, at, fr, i, after, rest, w).items)
    decreases fuel, 2 + |rest|, 3
  {
    var vals := EvalAll(m, fr, i.args);
    if i.kind.Branch? {
      BranchWellFormed(m, s, fuel, f, at, fr, i.kind.targets, m.branch(i, vals, w), w);
    } else if IsCall(i) {
      CalledWellFormed(m, s, fuel, f, at, fr, i, CalleeName(m, i, vals, w), vals, after, rest, w);
    } else if !i.kind.Ret? && !i.kind.Invoke? {
      var (v, w') := if i.kind.Phi? then (UNDEF, w) else m.compute(i, vals, w);
      AfterWellFormed(m, s, fuel, f, at, if i.kind.Phi? then fr else Define(fr, i, v), after, rest, w');
    }
  }

  lemma {:induction false} AfterWellFormed<W>(m: Machine<W>, s: Source, fuel: nat, f: Func, at: nat, fr: Frame,
                                              after: seq<Line>, rest: seq<Annotated>, w: W)
    requires GoodSource(s)
    ensures WellFormed(TraceAfter(m, s, fuel, f, at, fr, after, rest, w).items)
    decreases fuel, 2 + |rest|, 1
  {
    BlockWellFormed(m, s, fuel, f, at, fr, rest, w);
    LinesThenWellFormed(m, fr, after, TraceBlock(m, s, fuel, f, at, fr, rest, w));
  }

  lemma {:induction false} CalledWellFormed<W>(m: Machine<W>, s: Source, fuel: nat, f: Func, at: nat, fr: Frame,
                                               i: Inst, callee: string, vals: seq<Value>, after: seq<Line>,
                                               rest: seq<Annotated>, w: W)
    requires GoodSource(s)
    ensures WellFormed(TraceCalled(m, s, fuel, f, at, fr, i, callee, vals, after, rest, w).items)
    decreases fuel, 2 + |rest|, 2
  {
    CallWellFormed(m, s, fuel, callee, vals, w);
    var r := TraceCall(m, s, fuel, callee, vals, w);
    if r.status.Returned? {
      var fr' := Define(fr, i, r.status.value);
      AfterWellFormed(m, s, fuel, f, at, fr', after, rest, r.world);
      WellFormedAppend(r.items, TraceAfter(m, s, fuel, f, at, fr', after, rest, r.world).items);
    }
  }

  lemma {:induction false} BranchWellFormed<W>(m: Machine<W>, s: Source, fuel: nat, f: Func, at: nat, fr: Frame,
                                               targets: seq<nat>, t: nat, w: W)
    requires GoodSource(s)
    ensures WellFormed(TraceBranch(m, s, fuel, f, at, fr, targets, t, w).items)
    decreases fuel, 0, 1
  {
    if t < |targets| && targets[t] < |f.blocks| && fuel > 0 {
      var next := AnnotateFunction(f)[targets[t]];
      BlockWellFormed(m, s, fuel - 1, f, targets[t], fr.(regs := PhiRegisters(m, fr, PhisOf(next), at)), next, w);
    }
  }

  lemma {:induction false} CallWellFormed<W>(m: Machine<W>, s: Source, fuel: nat, callee: string, args: seq<Value>,
                                             w: W)
    requires GoodSource(s)
    ensures WellFormed(TraceCall(m, s, fuel, callee, args, w).items)
    decreases fuel, 1, 0
  {
    if callee == SET_TRACE_NAME {
      assert [Rename(m.sessionName(args, w))][1..] == [];
    } else if callee in s {
      FunctionWellFormed(m, s, fuel, callee, args, w);
    }
  }

  lemma {:induction false} FunctionWellFormed<W>(m: Machine<W>, s: Source, fuel: nat, name: string, args: seq<Value>,
                                                 w: W)
    requires GoodSource(s) && name in s
    ensures WellFormed(TraceFunction(m, s, fuel, name, args, w).items)
    decreases fuel, 0, 0
  {
    var f := s[name];
    if fuel > 0 && f.blocks != [] {
      var fr := Frame(map[], args);
      BlockWellFormed(m, s, fuel - 1, f, 0, fr, AnnotateFunction(f)[0], w);
      var r := TraceBlock(m, s, fuel - 1, f, 0, fr, AnnotateFunction(f)[0], w);
      LinesThenWellFormed(m, fr, EntryLines(f), r);
      assert GoodIn(s, name);
      OneActivation(f, Emits(m, fr, EntryLines(f)) + r.items);
    }
  }

  lemma OneActivation(f: Func, items: seq<Item>)
    requires GoodFunc(f) && WellFormed(items)
    ensures WellFormed([Activation(f.name, KindOf(f), |f.params|, items)])
  {
    var i := Activation(f.name, KindOf(f), |f.params|, items);
    assert WellFormedItem(i);
    assert [i][1..] == [];
  }

  // ---------- reading a trace file back ----------

  /** All records that the sessions write to one file, in order. */
  function RecordsIn(ss: seq<Session>, file: string): seq<Record>
    decreases ss
  {
    if ss == [] then [] else (if ss[0].file == file then ss[0].records else []) + RecordsIn(ss[1..], file)
  }

  ghost predicate HasSession(ss: seq<Session>, file: string) {
    exists x <- ss :: x.file == file
  }

  /** A file holds what it held before - for a new file the label map - and then the records
      of its sessions, in order; a file of no session is as before. */
  lemma {:induction false} FileContent(labelMap: string, files: map<string, seq<string>>, ss: seq<Session>,
                                       file: string)
    ensures var r := WriteSessions(labelMap, files, ss);
            && (file in r <==> file in files || HasSession(ss, file))
            && (file in r ==> r[file] == Opened(labelMap, files, file) + AllPieces(RecordsIn(ss, file)))
    decreases ss
  {
    if ss == [] {
      if file in files {
        assert files[file] + [] == files[file];
      }
    } else {
      var next := WriteSession(labelMap, files, ss[0]);
      FileContent(labelMap, next, ss[1..], file);
      assert HasSession(ss, file) <==> ss[0].file == file || HasSession(ss[1..], file) by {
        assert forall x <- ss :: x == ss[0] || x in ss[1..];
        assert ss[0] in ss && forall x <- ss[1..] :: x in ss;
      }
      var first, more := if ss[0].file == file then ss[0].records else [], RecordsIn(ss[1..], file);
      AllPiecesAppend(first, more);
      Associate(Opened(labelMap, files, file), AllPieces(first), AllPieces(more));
      if ss[0].file != file {
        assert Opened(labelMap, files, file) + AllPieces(first) == Opened(labelMap, files, file);
      }
    }
  }

  // ---------- one thread ----------

  /** A call of a function of the program by a thread. The main thread starts with a trace of
      the default name, any other thread without one. */
  datatype Job<!W> = Job(start: Option<string>, fuel: nat, name: string, args: seq<Value>, world: W)

  ghost function Instrumentation<W>(m: Machine<W>, s: Source, j: Job<W>): Outcome<W>
    requires j.name in s
  {
    ExecFunction(m, Instrumented(s), j.fuel, j.name, j.args, j.world)
  }

  /** The intended trace of the original program. */
  function Intended<W>(m: Machine<W>, s: Source, j: Job<W>): seq<Item>
    requires j.name in s
  {
    TraceFunction(m, s, j.fuel, j.name, j.args, j.world).items
  }

  function StartTrace<Handle>(start: Option<string>): Option<Info<Handle>> {
    if start.Some? then Some(NewTrace(start.value)) else None
  }

  function StartState(start: Option<string>): State {
    State(StartTrace(start), map[])
  }

  /** The sessions that the intended trace makes of a job. */
  function IntendedSessions<W>(m: Machine<W>, s: Source, j: Job<W>): seq<Session>
    requires j.name in s && WellFormed(Intended(m, s, j))
  {
    Sessions(Intended(m, s, j), j.start)
  }

  /** How many activations of the job have not returned. */
  function StillOpen<W>(m: Machine<W>, s: Source, j: Job<W>): nat
    requires j.name in s
  {
    TraceFunction(m, s, j.fuel, j.name, j.args, j.world).open
  }

  /** The calls of a job, whether it returns or not, are those of its intended trace; all that
      is missing are the returns of the activations that are still open. */
  lemma CallsOfJob<W>(m: Machine<W>, s: Source, j: Job<W>)
    requires GoodSource(s) && j.name in s
    ensures var o, items, n := Instrumentation(m, s, j), Intended(m, s, j), StillOpen(m, s, j);
            && WellFormed(items) && OpenAt(items, n)
            && CallsIn(o.events) == CallsSoFar(items, n) && Calls(items) == CallsIn(o.events) + Closing(items, n)
            && (o.status.Returned? ==> n == 0)
  {
    FunctionWellFormed(m, s, j.fuel, j.name, j.args, j.world);
    SimFunction(m, s, j.fuel, j.name, j.args, j.world);
    var made := CallsSoFar(Intended(m, s, j), StillOpen(m, s, j));
    assert made + [] == made;
    OnlyReturnsMissing(Intended(m, s, j), StillOpen(m, s, j));
  }

  /** Where the logger gets to in a job, and what it has written by then, told from its trace. */
  ghost function WalkOf<W>(m: Machine<W>, s: Source, j: Job<W>): Walk
    requires j.name in s && WellFormed(Intended(m, s, j)) && OpenAt(Intended(m, s, j), StillOpen(m, s, j))
  {
    AfterOpen(Walk(AtRest(j.start), []), Intended(m, s, j), StillOpen(m, s, j))
  }

  /** The logger at the end of a job, or where it has stopped. */
  function LoggerAfter<W>(labelMap: string, j: Job<W>, events: seq<Event<W>>): Ending {
    RunOn(labelMap, Going(StartState(j.start)), CallsIn(events))
  }

  /**
   End to end, for every run of the instrumented program, whether it returns or not: its logger has
   stopped at one of the assertions if and only if its intended trace, with the activations that
   are still open, says so, and at the assertion it says; the files hold what the trace has written
   by then, record by record. A run that returns has stopped if and only if tracked activations
   nest in it.
   */
  lemma LogOfEveryRun<W>(m: Machine<W>, s: Source, j: Job<W>, labelMap: string)
    requires GoodSource(s) && j.name in s
    ensures WellFormed(Intended(m, s, j)) && OpenAt(Intended(m, s, j), StillOpen(m, s, j))
    ensures Follows(labelMap, map[], LoggerAfter(labelMap, j, Instrumentation(m, s, j).events), WalkOf(m, s, j))
    ensures Instrumentation(m, s, j).status.Returned? ==>
              (WalkOf(m, s, j).where.Dead? <==> Nested(Intended(m, s, j)))
  {
    CallsOfJob(m, s, j);
    FollowOpen(labelMap, map[], Going(StartState(j.start)), Walk(AtRest(j.start), []), Intended(m, s, j),
               StillOpen(m, s, j));
    DeadIffNested(Intended(m, s, j), j.start);
  }

  /**
   Without nesting, whether the run returns or not, the logger does not stop, and the trace files
   hold exactly the sessions of the intended trace. In general it has stopped exactly if the trace
   says so, which for a run that returns means that tracked activations nest.
   */
  lemma LogOfProgram<W>(m: Machine<W>, s: Source, j: Job<W>, labelMap: string)
    requires GoodSource(s) && j.name in s
    ensures WellFormed(Intended(m, s, j)) && OpenAt(Intended(m, s, j), StillOpen(m, s, j))
    ensures var log := Run(labelMap, StartState(j.start), CallsIn(Instrumentation(m, s, j).events));
            !Nested(Intended(m, s, j)) ==>
              log.Ok? && log.value.files == WriteSessions(labelMap, map[], IntendedSessions(m, s, j))
    ensures var log := Run(labelMap, StartState(j.start), CallsIn(Instrumentation(m, s, j).events));
            && (Stopped(log) <==> WalkOf(m, s, j).where.Dead?)
            && (log.Ok? ==> log.value.files == WriteAll(labelMap, map[], WalkOf(m, s, j).writes))
            && (Instrumentation(m, s, j).status.Returned? ==> (Stopped(log) <==> Nested(Intended(m, s, j))))
  {
    LogOfEveryRun(m, s, j, labelMap);
    CallsOfJob(m, s, j);
    RunOnRun(labelMap, StartState(j.start), CallsIn(Instrumentation(m, s, j).events));
    if !Nested(Intended(m, s, j)) {
      OpenWindow(labelMap, StartState(j.start), Intended(m, s, j), StillOpen(m, s, j), j.start);
    }
  }

  ghost predicate AllPrintable(rs: seq<Record>) {
    forall r <- rs :: Printable(r)
  }

  /**
   A trace file reads back: what follows its label map decodes to the records of the file's sessions,
   and a reader of the whole file gets the registered label map and these records, if and only if the
   map does not hold the line that ends its section.
   */
  lemma ReadBack<W>(m: Machine<W>, s: Source, j: Job<W>, labelMap: string, file: string)
    requires GoodSource(s) && j.name in s
    requires WellFormed(Intended(m, s, j)) && !Nested(Intended(m, s, j))
    requires AllPrintable(RecordsIn(IntendedSessions(m, s, j), file))
    ensures var log := Run(labelMap, StartState(j.start), CallsIn(Instrumentation(m, s, j).events));
            var sessions := IntendedSessions(m, s, j);
            && log.Ok? && (file in log.value.files <==> HasSession(sessions, file))
            && (file in log.value.files ==>
                  && |log.value.files[file]| >= 3
                  && Decode(Concat(log.value.files[file][3..])) == Some(RecordsIn(sessions, file))
                  && (ReadFile(Concat(log.value.files[file])) == Some(File(labelMap, RecordsIn(sessions, file)))
                      <==> !Holds(labelMap, MAP_END)))
  {
    LogOfProgram(m, s, j, labelMap);
    var sessions := IntendedSessions(m, s, j);
    FileContent(labelMap, map[], sessions, file);
    FileRead(labelMap, LabelMapPieces(labelMap) + AllPieces(RecordsIn(sessions, file)), RecordsIn(sessions, file));
  }

  // ---------- many threads ----------

  /** The thread makes the logger calls of this job, which need not return. */
  ghost predicate RunsJob<W>(m: Machine<W>, s: Source, th: Threads.Thread, j: Job<W>) {
    j.name in s && th.trace == StartTrace(j.start) && th.todo == CallsIn(Instrumentation(m, s, j).events)
  }

  lemma JobAlone<W>(m: Machine<W>, s: Source, th: Threads.Thread, j: Job<W>, labelMap: string)
    requires GoodSource(s) && RunsJob(m, s, th, j)
    ensures Isolation.RunAlone(labelMap, th) == Run(labelMap, StartState(j.start),
                                                    CallsIn(Instrumentation(m, s, j).events))
  {
  }

  /** What the sessions of a job leave in a file, one label map first. */
  function Contents<W>(m: Machine<W>, s: Source, j: Job<W>, labelMap: string, file: string): seq<string>
    requires j.name in s && WellFormed(Intended(m, s, j))
  {
    LabelMapPieces(labelMap) + AllPieces(RecordsIn(IntendedSessions(m, s, j), file))
  }

  /** What a reader gets from a file. */
  ghost predicate Reads(content: seq<string>, labelMap: string, rs: seq<Record>) {
    && |content| >= 3
    && (ReadMap(Concat(content)) == Some((labelMap, Concat(content[3..]))) <==> !Holds(labelMap, MAP_END))
    && (AllPrintable(rs) ==>
          Decode(Concat(content[3..])) == Some(rs)
          && (ReadFile(Concat(content)) == Some(File(labelMap, rs)) <==> !Holds(labelMap, MAP_END)))
  }

  lemma ContentsRead(labelMap: string, rs: seq<Record>)
    ensures Reads(LabelMapPieces(labelMap) + AllPieces(rs), labelMap, rs)
  {
    var content := LabelMapPieces(labelMap) + AllPieces(rs);
    HeadedRead(labelMap, content);
    if AllPrintable(rs) {
      FileRead(labelMap, content, rs);
    }
  }

  /**
   End to end with threads: when the threads of a system use disjoint file names and one of them
   runs the instrumented program, then after any schedule in which that thread has finished, the
   files of its sessions hold exactly the sessions of its own intended trace, each file after one
   label map; a reader gets the registered map back, and the records if they are printable. What the
   other threads run does not matter.
   */
  lemma LogOfThread<W>(m: Machine<W>, s: Source, g: Threads.System, t: nat, j: Job<W>, labelMap: string,
                       schedule: seq<nat>)
    requires GoodSource(s) && t < |g.threads| && RunsJob(m, s, g.threads[t], j)
    requires Threads.Initial(g) && Isolation.DisjointNames(g)
    requires Threads.Schedule(labelMap, g, schedule).Some?
    requires t < |Threads.Schedule(labelMap, g, schedule).value.threads|
    requires Threads.Schedule(labelMap, g, schedule).value.threads[t].Finished()
    ensures WellFormed(Intended(m, s, j))
    ensures Instrumentation(m, s, j).status.Returned? ==> !Nested(Intended(m, s, j))
    ensures var sh := Threads.Schedule(labelMap, g, schedule).value.sh;
            !Nested(Intended(m, s, j)) ==>
              forall file: string :: HasSession(IntendedSessions(m, s, j), file) ==>
                && file in sh.table && sh.table[file] in sh.store
                && sh.store[sh.table[file]] == Contents(m, s, j, labelMap, file)
                && Reads(sh.store[sh.table[file]], labelMap, RecordsIn(IntendedSessions(m, s, j), file))
  {
    LogOfProgram(m, s, j, labelMap);
    JobAlone(m, s, g.threads[t], j, labelMap);
    Isolation.NonInterference(labelMap, g, schedule, t);
    if !Nested(Intended(m, s, j)) {
      forall file: string | HasSession(IntendedSessions(m, s, j), file)
        ensures file in Isolation.RunAlone(labelMap, g.threads[t]).value.files
        ensures Isolation.RunAlone(labelMap, g.threads[t]).value.files[file] == Contents(m, s, j, labelMap, file)
      {
        FileContent(labelMap, map[], IntendedSessions(m, s, j), file);
      }
      forall file: string
        ensures Reads(Contents(m, s, j, labelMap, file), labelMap, RecordsIn(IntendedSessions(m, s, j), file))
      {
        ContentsRead(labelMap, RecordsIn(IntendedSessions(m, s, j), file));
      }
    }
  }

  /**
   At every moment of every schedule, whether the thread has finished or not and whether its
   program returns or not, each open file of the thread's sessions holds a prefix of one label map
   and the sessions of its intended trace.
   */
  lemma ThreadPrefix<W>(m: Machine<W>, s: Source, g: Threads.System, t: nat, j: Job<W>, labelMap: string,
                        schedule: seq<nat>, file: string)
    requires GoodSource(s) && t < |g.threads| && RunsJob(m, s, g.threads[t], j)
    requires Threads.Initial(g) && Isolation.DisjointNames(g)
    requires Threads.Schedule(labelMap, g, schedule).Some?
    requires WellFormed(Intended(m, s, j)) && !Nested(Intended(m, s, j))
    requires HasSession(IntendedSessions(m, s, j), file)
    requires file in Threads.Schedule(labelMap, g, schedule).value.sh.table
    ensures var sh := Threads.Schedule(labelMap, g, schedule).value.sh;
            sh.table[file] in sh.store && sh.store[sh.table[file]] <= Contents(m, s, j, labelMap, file)
  {
    LogOfProgram(m, s, j, labelMap);
    JobAlone(m, s, g.threads[t], j, labelMap);
    FileContent(labelMap, map[], IntendedSessions(m, s, j), file);
    Isolation.RunOpensNames(labelMap, StartState(j.start), g.threads[t].todo);
    Isolation.AlwaysPrefix(labelMap, g, schedule, t, file);
  }
}
