/**
 The lock never blocks the program for good: some thread can always take a step, no schedule goes on
 for ever, and every schedule can be continued until all threads have made all their logger calls -
 unless one of them stops at an assertion.
 */
module Completion {
  import opened Wrappers
  import opened TraceText
  import opened Logger
  import opened Threads
  import opened Isolation

  // ---------- threads that no assertion stops ----------

  ghost predicate NeverHalts(trace: Option<Info<string>>, calls: seq<Call>)
    decreases calls
  {
    calls == [] ||
    match Act(trace, calls[0])
    case Silent(t) => NeverHalts(t, calls[1..])
    case Print(t, _, _) => NeverHalts(t, calls[1..])
    case OpenPrint(i, _) => NeverHalts(Some(i.(file := Some(i.name))), calls[1..])
    case Halt(_) => false
  }

  ghost predicate Fine(th: Thread) {
    NeverHalts(AfterCall(th), th.todo)
  }

  ghost predicate AllFine(g: System) {
    forall t: nat :: t < |g.threads| ==> Fine(g.threads[t])
  }

  lemma {:induction false} OkNeverHalts(labelMap: string, s: State, calls: seq<Call>)
    requires Run(labelMap, s, calls).Ok?
    ensures NeverHalts(s.trace, calls)
    decreases calls
  {
    if calls != [] {
      OkNeverHalts(labelMap, Logger.Step(labelMap, s, calls[0]).value, calls[1..]);
    }
  }

  // ---------- progress ----------

  lemma ThreadCanStep(labelMap: string, g: System, t: nat)
    requires Threads.Invariant(labelMap, g) && t < |g.threads| && !g.threads[t].Finished() && Fine(g.threads[t])
    requires g.threads[t].phase.WantLock? ==> g.sh.lock.None?
    ensures SystemStep(labelMap, g, t).Some?
  {
    var th := g.threads[t];
    assert ThreadOk(labelMap, th, g.sh);
    if th.phase.Ready? {
      ActAlone(th.trace, th.todo[0]);
    }
  }

  /** There is no deadlock: as long as a thread has something to do, some thread can do a step. */
  lemma Progress(labelMap: string, g: System, t: nat) returns (u: nat)
    requires Threads.Invariant(labelMap, g) && t < |g.threads| && !g.threads[t].Finished() && Fine(g.threads[t])
    ensures u < |g.threads| && SystemStep(labelMap, g, u).Some?
  {
    if g.threads[t].phase.WantLock? && g.sh.lock.Some? {
      u := g.sh.lock.value;
      HolderCanStep(labelMap, g, u);
    } else {
      u := t;
      ThreadCanStep(labelMap, g, t);
    }
  }

  lemma HolderCanStep(labelMap: string, g: System, u: nat)
    requires Threads.Invariant(labelMap, g) && g.sh.lock == Some(u)
    ensures u < |g.threads| && SystemStep(labelMap, g, u).Some?
  {
    assert g.threads[u].Holding() && ThreadOk(labelMap, g.threads[u], g.sh);
  }

  // ---------- how much is left to do ----------

  function PhaseWork(phase: Phase): nat {
    match phase
    case Ready => 0
    case Printing(rest) => |rest| + 1
    case Unlocking(r) => |Pieces(r)| + 2
    case WritingMap(r, rest) => |rest| + |Pieces(r)| + 3
    case Registering(r, _) => |Pieces(r)| + 7
    case Opening(r) => |Pieces(r)| + 8
    case Lookup(r) => |Pieces(r)| + 9
    case WantLock(r) => |Pieces(r)| + 10
  }

  /** Steps that the calls take at most. */
  function TodoWork(trace: Option<Info<string>>, calls: seq<Call>): nat
    decreases calls
  {
    if calls == [] then 0
    else
      match Act(trace, calls[0])
      case Silent(t) => 1 + TodoWork(t, calls[1..])
      case Print(t, _, r) => 1 + PhaseWork(Printing(Pieces(r))) + TodoWork(t, calls[1..])
      case OpenPrint(i, r) => 1 + PhaseWork(WantLock(r)) + TodoWork(Some(i.(file := Some(i.name))), calls[1..])
      case Halt(_) => 0
  }

  function Work(th: Thread): nat {
    PhaseWork(th.phase) + TodoWork(AfterCall(th), th.todo)
  }

  function TotalWork(threads: seq<Thread>): nat
    decreases threads
  {
    if threads == [] then 0 else Work(threads[0]) + TotalWork(threads[1..])
  }

  lemma {:induction false} TotalWorkAt(threads: seq<Thread>, t: nat, th: Thread)
    requires t < |threads|
    ensures TotalWork(threads[t := th]) + Work(threads[t]) == TotalWork(threads) + Work(th)
    decreases threads
  {
    if t == 0 {
      assert threads[0 := th][1..] == threads[1..];
    } else {
      assert threads[t := th][1..] == threads[1..][t - 1 := th];
      TotalWorkAt(threads[1..], t - 1, th);
    }
  }

  lemma CallShrinks(labelMap: string, me: nat, th: Thread, sh: Shared)
    requires th.phase.Ready? && Threads.Step(labelMap, me, th, sh).Some?
    ensures var after := Threads.Step(labelMap, me, th, sh).value.0;
            Work(after) < Work(th) && (Fine(th) ==> Fine(after))
  {
    ActAlone(th.trace, th.todo[0]);
  }

  lemma PhaseShrinks(labelMap: string, me: nat, th: Thread, sh: Shared)
    requires !th.phase.Ready? && ThreadOk(labelMap, th, sh) && Threads.Step(labelMap, me, th, sh).Some?
    requires th.phase.Lookup? && th.trace.value.name in sh.table ==>
               sh.table[th.trace.value.name].name == th.trace.value.name
    ensures var after := Threads.Step(labelMap, me, th, sh).value.0;
            after.todo == th.todo && AfterCall(after) == AfterCall(th) && PhaseWork(after.phase) < PhaseWork(th.phase)
  {
  }

  /** Every step is one step less to do. */
  lemma StepShrinks(labelMap: string, g: System, me: nat)
    requires Threads.Invariant(labelMap, g) && SystemStep(labelMap, g, me).Some?
    ensures var g' := SystemStep(labelMap, g, me).value;
            TotalWork(g'.threads) < TotalWork(g.threads) && (AllFine(g) ==> AllFine(g'))
  {
    var th := g.threads[me];
    if th.phase.Ready? {
      CallShrinks(labelMap, me, th, g.sh);
    } else {
      PhaseShrinks(labelMap, me, th, g.sh);
    }
    TotalWorkAt(g.threads, me, Threads.Step(labelMap, me, th, g.sh).value.0);
  }

  /** No schedule is longer than the work there is to do. */
  lemma {:induction false} ScheduleBounded(labelMap: string, g: System, schedule: seq<nat>)
    requires Threads.Invariant(labelMap, g) && Schedule(labelMap, g, schedule).Some?
    ensures var g' := Schedule(labelMap, g, schedule).value;
            |schedule| + TotalWork(g'.threads) <= TotalWork(g.threads) && (AllFine(g) ==> AllFine(g'))
    decreases schedule
  {
    if schedule != [] {
      StepShrinks(labelMap, g, schedule[0]);
      Threads.StepKeepsInvariant(labelMap, g, schedule[0]);
      ScheduleBounded(labelMap, SystemStep(labelMap, g, schedule[0]).value, schedule[1..]);
    }
  }

  ghost predicate AllFinished(g: System) {
    forall t: nat :: t < |g.threads| ==> g.threads[t].Finished()
  }

  lemma {:induction false} RunsToTheEnd(labelMap: string, g: System) returns (schedule: seq<nat>)
    requires Threads.Invariant(labelMap, g) && AllFine(g)
    ensures Schedule(labelMap, g, schedule).Some? && AllFinished(Schedule(labelMap, g, schedule).value)
    decreases TotalWork(g.threads)
  {
    if AllFinished(g) {
      schedule := [];
    } else {
      var t: nat :| t < |g.threads| && !g.threads[t].Finished();
      var u := Progress(labelMap, g, t);
      StepShrinks(labelMap, g, u);
      Threads.StepKeepsInvariant(labelMap, g, u);
      var rest := RunsToTheEnd(labelMap, SystemStep(labelMap, g, u).value);
      schedule := [u] + rest;
      assert schedule[0] == u && schedule[1..] == rest;
    }
  }

  lemma {:induction false} ScheduleAppend(labelMap: string, g: System, a: seq<nat>, b: seq<nat>)
    requires Schedule(labelMap, g, a).Some?
    ensures Schedule(labelMap, g, a + b) == Schedule(labelMap, Schedule(labelMap, g, a).value, b)
    decreases a
  {
    if a == [] {
      assert a + b == b;
    } else {
      assert (a + b)[0] == a[0] && (a + b)[1..] == a[1..] + b;
      ScheduleAppend(labelMap, SystemStep(labelMap, g, a[0]).value, a[1..], b);
    }
  }

  lemma StartFine(labelMap: string, g: System)
    requires Initial(g) && forall t: nat :: t < |g.threads| ==> RunAlone(labelMap, g.threads[t]).Ok?
    ensures AllFine(g)
  {
    forall t: nat | t < |g.threads|
      ensures Fine(g.threads[t])
    {
      var th := g.threads[t];
      assert th in g.threads && RunAlone(labelMap, th).Ok?;
      OkNeverHalts(labelMap, State(Alone(th.trace), map[]), th.todo);
    }
  }

  /**
   When no thread running alone stops at an assertion, then whatever has been scheduled so far,
   under any sharing of file names, can be continued until all threads have finished.
   */
  lemma CanAlwaysFinish(labelMap: string, g: System, done: seq<nat>) returns (more: seq<nat>)
    requires Initial(g) && forall t: nat :: t < |g.threads| ==> RunAlone(labelMap, g.threads[t]).Ok?
    requires Schedule(labelMap, g, done).Some?
    ensures Schedule(labelMap, g, done + more).Some? && AllFinished(Schedule(labelMap, g, done + more).value)
  {
    InitialInvariant(labelMap, g);
    StartFine(labelMap, g);
    ScheduleBounded(labelMap, g, done);
    ScheduleKeepsInvariant(labelMap, g, done);
    more := RunsToTheEnd(labelMap, Schedule(labelMap, g, done).value);
    ScheduleAppend(labelMap, g, done, more);
  }
}
