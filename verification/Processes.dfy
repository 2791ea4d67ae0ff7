/**
 The instrumented program as a process: an assertion of the logger ends it
 (profile-func/trace_logger.cpp:132-138). What the pass preserves of the original program is stated
 here for every run, those included in which the logger stops.
 */
module Processes {
  import opened Wrappers
  import opened StaticIds
  import opened Tokens
  import opened Logger
  import opened Runs
  import opened Walks
  import opened Ir
  import opened Annotations
  import opened Semantics
  import opened Correctness
  import opened Preservation
  import opened EndToEnd
  import VectorTypes

  /** The program has run to its end, as far as its fuel went, or the logger has aborted it. */
  datatype Fate<W> = Ran(status: Status, world: W) | Aborted(stop: Stop)

  /** What has happened before the end of a process, and what its logger has become. */
  datatype Process<W> = Process(fate: Fate<W>, events: seq<Event<W>>, log: State)

  /** The events up to the call at which the logger stops. */
  function Happened<W>(labelMap: string, log: State, events: seq<Event<W>>): seq<Event<W>>
    decreases events
  {
    if events == [] then []
    else
      match events[0]
      case Seen(_, _) => [events[0]] + Happened(labelMap, log, events[1..])
      case Made(c) =>
        match Step(labelMap, log, c)
        case Ok(next) => [events[0]] + Happened(labelMap, next, events[1..])
        case Err(_) => []
  }

  function ProcessOf<W>(labelMap: string, start: State, o: Outcome<W>): Process<W> {
    var e := RunOn(labelMap, Going(start), CallsIn(o.events));
    Process(if e.Going? then Ran(o.status, o.world) else Aborted(e.stop), Happened(labelMap, start, o.events), e.state)
  }

  /** Everything happens, or everything up to the call that stops the logger. */
  ghost predicate CutAt<W>(labelMap: string, e: Ending, happened: seq<Event<W>>, events: seq<Event<W>>) {
    if e.Going? then happened == events
    else
      && happened < events && events[|happened|].Made?
      && Step(labelMap, e.state, events[|happened|].call) == Err(e.stop)
  }

  lemma {:induction false} HappenedCut<W>(labelMap: string, log: State, events: seq<Event<W>>)
    ensures CutAt(labelMap, RunOn(labelMap, Going(log), CallsIn(events)), Happened(labelMap, log, events), events)
    ensures RunOn(labelMap, Going(log), CallsIn(Happened(labelMap, log, events)))
         == Going(RunOn(labelMap, Going(log), CallsIn(events)).state)
    decreases events
  {
    if events != [] {
      var rest := events[1..];
      match events[0]
      case Seen(_, _) =>
        assert CallsIn(events) == CallsIn(rest);
        HappenedCut(labelMap, log, rest);
        FirstHappened(labelMap, RunOn(labelMap, Going(log), CallsIn(rest)), events[0],
                      Happened(labelMap, log, rest), rest);
        assert CallsIn(Happened(labelMap, log, events)) == CallsIn(Happened(labelMap, log, rest));
      case Made(c) =>
        assert CallsIn(events) == [c] + CallsIn(rest);
        RunOnAppend(labelMap, Going(log), [c], CallsIn(rest));
        RunOnOne(labelMap, log, c);
        var r := Step(labelMap, log, c);
        if r.Ok? {
          HappenedCut(labelMap, r.value, rest);
          FirstHappened(labelMap, RunOn(labelMap, Going(r.value), CallsIn(rest)), events[0],
                        Happened(labelMap, r.value, rest), rest);
          RunOnAppend(labelMap, Going(log), [c], CallsIn(Happened(labelMap, r.value, rest)));
        }
    }
  }

  lemma FirstHappened<W>(labelMap: string, e: Ending, first: Event<W>, happened: seq<Event<W>>, rest: seq<Event<W>>)
    requires CutAt(labelMap, e, happened, rest)
    ensures CutAt(labelMap, e, [first] + happened, [first] + rest)
    ensures CallsIn([first] + happened) == (if first.Made? then [first.call] else []) + CallsIn(happened)
  {
    assert ([first] + happened)[1..] == happened;
  }

  lemma OwnPrefix<W>(a: seq<Event<W>>, b: seq<Event<W>>)
    requires a <= b
    ensures Own(a) <= Own(b)
  {
    OwnAppend(a, b[|a|..]);
    assert a + b[|a|..] == b;
  }

  function Original<W>(m: Machine<W>, s: Source, j: Job<W>): Outcome<W>
    requires j.name in s
  {
    ExecFunction(m, UntouchedProgram(s), j.fuel, j.name, j.args, j.world)
  }

  ghost function Instrumentee<W>(m: Machine<W>, s: Source, j: Job<W>, labelMap: string): Process<W>
    requires j.name in s
  {
    ProcessOf(labelMap, StartState(j.start), Instrumentation(m, s, j))
  }

  /**
   Meaning is preserved, exactly as far as the logger lets it: for every program, arguments, world
   and fuel, the process of the instrumented program either ends as the original run does, after
   the same registers and worlds in the same order, or it is aborted at one of the assertions of
   the logger, after some first part of them. Which of the two, and at which assertion, can be told
   from the trace of the original program; a run that returns is aborted if and only if tracked
   activations nest in it. Either way the files hold what the trace has written by then.
   */
  lemma SameMeaning<W>(m: Machine<W>, s: Source, j: Job<W>, labelMap: string)
    requires GoodSource(s) && j.name in s
    ensures WellFormed(Intended(m, s, j)) && OpenAt(Intended(m, s, j), StillOpen(m, s, j))
    ensures var o, p := Original(m, s, j), Instrumentee(m, s, j, labelMap);
            match WalkOf(m, s, j).where
            case Dead(stop) => p.fate == Aborted(stop) && stop != NoFile && Own(p.events) <= o.events
            case _ => p.fate == Ran(o.status, o.world) && Own(p.events) == o.events
    ensures var p, all := Instrumentee(m, s, j, labelMap), Instrumentation(m, s, j).events;
            if p.fate.Ran? then p.events == all
            else
              && p.events < all && all[|p.events|].Made?
              && Step(labelMap, p.log, all[|p.events|].call) == Err(p.fate.stop)
    ensures Instrumentee(m, s, j, labelMap).log.files == WriteAll(labelMap, map[], WalkOf(m, s, j).writes)
    ensures Original(m, s, j).status.Returned? ==>
              (Instrumentee(m, s, j, labelMap).fate.Aborted? <==> Nested(Intended(m, s, j)))
  {
    LogOfEveryRun(m, s, j, labelMap);
    SameEvents(m, s, j.fuel, j.name, j.args, j.world);
    var i := Instrumentation(m, s, j);
    HappenedCut(labelMap, StartState(j.start), i.events);
    OwnPrefix(Happened(labelMap, StartState(j.start), i.events), i.events);
  }

  // ---------- a program that returns, and is aborted once it is instrumented ----------

  const LEAVE := Inst(2, VoidT, None, -1, 0, 1, [], Ret)
  const CALL_INNER := Inst(1, VoidT, None, -1, 0, 56, [], DirectCall("inner", 0, false, false))

  const INNER := Func("inner", true, true, false, [], [Block(BlockRef(0, Some("entry"), 0, 0), [LEAVE])])
  const OUTER := Func("outer", true, true, false, [], [Block(BlockRef(0, Some("entry"), 0, 0), [CALL_INNER, LEAVE])])
  const NESTING: Source := map["outer" := OUTER, "inner" := INNER]

  lemma NestingIsGood()
    ensures GoodSource(NESTING)
  {
    forall n: string
      ensures GoodIn(NESTING, n)
    {
      if n in NESTING {
        VectorTypes.WholeBytesApart(NESTING[n]);
      }
    }
  }

  lemma {:induction false} HasTrackedAppend(a: seq<Item>, b: seq<Item>)
    requires HasTracked(b)
    ensures HasTracked(a + b)
    decreases a
  {
    if a == [] {
      assert a + b == b;
    } else {
      assert (a + b)[1..] == a[1..] + b;
      HasTrackedAppend(a[1..], b);
    }
  }

  lemma {:induction false} HasTrackedFront(a: seq<Item>, b: seq<Item>)
    requires HasTracked(a)
    ensures HasTracked(a + b)
    decreases a
  {
    assert (a + b)[1..] == a[1..] + b;
    if !ItemHasTracked(a[0]) {
      HasTrackedFront(a[1..], b);
    }
  }

  /** A body that starts with a return. */
  ghost predicate LeavesAtOnce(anns: seq<Annotated>) {
    anns != [] && anns[0].inst.kind.Ret?
  }

  lemma TraceOfReturn<W>(m: Machine<W>, s: Source, fuel: nat, f: Func, fr: Frame, anns: seq<Annotated>, w: W)
    requires LeavesAtOnce(anns)
    ensures TraceBlock(m, s, fuel, f, 0, fr, anns, w).status.Returned?
  {
  }

  ghost predicate TrackedLeaf(f: Func) {
    KindOf(f).Tracked? && f.blocks != [] && LeavesAtOnce(AnnotateFunction(f)[0])
  }

  lemma TraceOfLeaf<W>(m: Machine<W>, s: Source, fuel: nat, name: string, args: seq<Value>, w: W)
    requires fuel > 0 && name in s && TrackedLeaf(s[name])
    ensures var t := TraceFunction(m, s, fuel, name, args, w);
            t.status.Returned? && HasTracked(t.items)
  {
    var fr := Frame(map[], args);
    TraceOfReturn(m, s, fuel - 1, s[name], fr, AnnotateFunction(s[name])[0], w);
    TraceEnter(m, s, fuel, name, args, w);
    TrackedActivation(s[name], PrefixedT(Emits(m, fr, EntryLines(s[name])),
                                         TraceBlock(m, s, fuel - 1, s[name], 0, fr, AnnotateFunction(s[name])[0], w)));
  }

  lemma TrackedActivation<W>(f: Func, body: Trace<W>)
    requires KindOf(f).Tracked?
    ensures Activated(f, body).status == body.status && HasTracked(Activated(f, body).items)
  {
  }

  ghost predicate CallsLeaf(s: Source, i: Inst) {
    i.kind.DirectCall? && i.kind.callee != SET_TRACE_NAME && i.kind.callee in s && TrackedLeaf(s[i.kind.callee])
  }

  lemma TraceOfCall<W>(m: Machine<W>, s: Source, fuel: nat, f: Func, fr: Frame, i: Inst, after: seq<Line>,
                       rest: seq<Annotated>, w: W)
    requires fuel > 0 && LeavesAtOnce(rest) && CallsLeaf(s, i)
    ensures var t := TraceInst(m, s, fuel, f, 0, fr, i, after, rest, w);
            t.status.Returned? && HasTracked(t.items)
  {
    var callee, vals := i.kind.callee, EvalAll(m, fr, i.args);
    TraceOfLeaf(m, s, fuel, callee, vals, w);
    InstIsCall(m, s, fuel, f, fr, i, after, rest, w);
    var q := TraceCall(m, s, fuel, callee, vals, w);
    CallThenRest(m, s, fuel, f, fr, i, callee, vals, after, rest, w);
    var t := TraceAfter(m, s, fuel, f, 0, Define(fr, i, q.status.value), after, rest, q.world);
    TraceOfReturn(m, s, fuel, f, Define(fr, i, q.status.value), rest, q.world);
    HasTrackedFront(q.items, t.items);
  }

  lemma InstIsCall<W>(m: Machine<W>, s: Source, fuel: nat, f: Func, fr: Frame, i: Inst, after: seq<Line>,
                      rest: seq<Annotated>, w: W)
    requires CallsLeaf(s, i)
    ensures TraceInst(m, s, fuel, f, 0, fr, i, after, rest, w)
         == TraceCalled(m, s, fuel, f, 0, fr, i, i.kind.callee, EvalAll(m, fr, i.args), after, rest, w)
    ensures TraceCall(m, s, fuel, i.kind.callee, EvalAll(m, fr, i.args), w)
         == TraceFunction(m, s, fuel, i.kind.callee, EvalAll(m, fr, i.args), w)
  {
  }

  lemma CallThenRest<W>(m: Machine<W>, s: Source, fuel: nat, f: Func, fr: Frame, i: Inst, callee: string,
                        vals: seq<Value>, after: seq<Line>, rest: seq<Annotated>, w: W)
    requires TraceCall(m, s, fuel, callee, vals, w).status.Returned?
    ensures var q := TraceCall(m, s, fuel, callee, vals, w);
            var t := TraceAfter(m, s, fuel, f, 0, Define(fr, i, q.status.value), after, rest, q.world);
            var r := TraceCalled(m, s, fuel, f, 0, fr, i, callee, vals, after, rest, w);
            r.status == t.status && r.items == q.items + t.items
  {
  }

  /** A tracked function that calls a tracked one nests them. */
  lemma TraceOfCaller<W>(m: Machine<W>, s: Source, fuel: nat, name: string, args: seq<Value>, w: W)
    requires fuel > 1 && name in s && KindOf(s[name]).Tracked? && s[name].blocks != []
    requires var anns := AnnotateFunction(s[name])[0];
             anns != [] && CallsLeaf(s, anns[0].inst) && LeavesAtOnce(anns[1..])
    ensures var t := TraceFunction(m, s, fuel, name, args, w);
            t.status.Returned? && Nested(t.items)
  {
    var f, fr := s[name], Frame(map[], args);
    var a, rest := AnnotateFunction(f)[0][0], AnnotateFunction(f)[0][1..];
    TraceOfCall(m, s, fuel - 1, f, fr, a.inst, a.after, rest, w);
    var called := TraceInst(m, s, fuel - 1, f, 0, fr, a.inst, a.after, rest, w);
    HasTrackedAppend(Emits(m, fr, a.before), called.items);
    HasTrackedAppend(Emits(m, fr, EntryLines(f)), Emits(m, fr, a.before) + called.items);
  }

  lemma NestingShape()
    ensures CallsLeaf(NESTING, AnnotateFunction(OUTER)[0][0].inst) && LeavesAtOnce(AnnotateFunction(OUTER)[0][1..])
  {
    AnnotateFunctionInsts(OUTER, 0);
    AnnotateFunctionInsts(INNER, 0);
    var outer, inner := AnnotateFunction(OUTER)[0], AnnotateFunction(INNER)[0];
    assert outer[0].inst == InstsOf(outer)[0] && outer[1].inst == InstsOf(outer)[1];
    assert inner[0].inst == InstsOf(inner)[0];
  }

  /** A tracked function that calls another one: the original returns, the instrumented program is
      aborted. */
  lemma NestingAborts<W>(m: Machine<W>, j: Job<W>, labelMap: string)
    requires j.name == "outer" && j.fuel > 1
    ensures Original(m, NESTING, j).status.Returned?
    ensures Instrumentee(m, NESTING, j, labelMap).fate.Aborted?
  {
    NestingIsGood();
    NestingShape();
    TraceOfCaller(m, NESTING, j.fuel, "outer", j.args, j.world);
    SameMeaning(m, NESTING, j, labelMap);
    RunFunction(m, NESTING, j.fuel, "outer", j.args, j.world);
  }
}
