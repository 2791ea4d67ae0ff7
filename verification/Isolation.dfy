/**
 Non-interference between threads: with disjoint session file names, each file ends up with
 exactly what its own thread writes when it runs alone (README.md:57-59 asks each thread for
 a name of its own). The proof follows one value through every step of every schedule: what
 the thread's whole remaining program would leave behind if it ran alone from here.
 */
module Isolation {
  import opened Wrappers
  import opened TraceText
  import opened Logger
  import opened Threads

  /** The trace of a thread as the sequential logger sees it. */
  function Alone(trace: Option<Info<Handle>>): Option<Info<string>> {
    match trace
    case None => None
    case Some(i) =>
      Some(Info(i.name, if i.file.Some? then Some(i.file.value.name) else None, i.count, i.toplevel, i.status))
  }

  /** The names under which a thread that runs alone opens its sessions. */
  function SessionNames(trace: Option<Info<string>>, calls: seq<Call>): set<string>
    decreases calls
  {
    if calls == [] then {} else
      match Act(trace, calls[0])
      case Silent(t) => SessionNames(t, calls[1..])
      case Print(t, _, _) => SessionNames(t, calls[1..])
      case OpenPrint(i, _) => {i.name} + SessionNames(Some(i.(file := Some(i.name))), calls[1..])
      case Halt(_) => {}
  }

  /** The name of the file that the thread is opening or has open. */
  function CurrentNames(th: Thread): set<string> {
    if th.trace.None? then {}
    else (if th.Entering() then {th.trace.value.name} else {})
         + (if th.HasFile() then {th.File().name} else {})
  }

  /** The trace once the logger call in progress has returned. */
  function AfterCall(th: Thread): Option<Info<string>> {
    if th.Entering() && th.trace.Some? then
      Some(Alone(th.trace).value.(file := Some(th.trace.value.name)))
    else Alone(th.trace)
  }

  ghost predicate Uses(th: Thread, names: set<string>) {
    CurrentNames(th) <= names && SessionNames(AfterCall(th), th.todo) <= names
  }

  /** The registered files with these names. */
  function View(sh: Shared, names: set<string>): map<string, seq<string>> {
    map n | n in names && n in sh.table && sh.table[n] in sh.store :: sh.store[sh.table[n]]
  }

  /** What the call in progress has still to add to its file. */
  function Unwritten(labelMap: string, th: Thread): seq<string> {
    match th.phase
    case Ready => []
    case WritingMap(r, rest) => rest + Pieces(r)
    case Printing(rest) => rest
    case _ => Pieces(th.phase.record)
  }

  function CurrentFile(th: Thread): Option<string> {
    if th.trace.None? || th.phase.Ready? then None
    else if th.phase.Printing? then (if th.HasFile() then Some(th.File().name) else None)
    else Some(th.trace.value.name)
  }

  /** The state of the thread running alone, once the call in progress has returned. */
  function Settled(labelMap: string, th: Thread, sh: Shared, names: set<string>): State {
    var files := View(sh, names);
    State(AfterCall(th),
          match CurrentFile(th)
          case None => files
          case Some(f) => files[f := Opened(labelMap, files, f) + Unwritten(labelMap, th)])
  }

  /** What the rest of the thread's program leaves behind when it runs alone. */
  function Outcome(labelMap: string, th: Thread, sh: Shared, names: set<string>): Result<State, Stop> {
    Run(labelMap, Settled(labelMap, th, sh, names), th.todo)
  }

  // ---------- the thread's own steps ----------

  lemma ActAlone(trace: Option<Info<Handle>>, c: Call)
    ensures match Act(trace, c)
            case Silent(t) => Act(Alone(trace), c) == Silent(Alone(t))
            case Print(t, f, r) => Act(Alone(trace), c) == Print(Alone(t), f.name, r)
            case OpenPrint(i, r) => Act(Alone(trace), c) == OpenPrint(Alone(Some(i)).value, r)
            case Halt(e) => Act(Alone(trace), c) == Halt(e)
  {
  }

  /** The step keeps the outcome and stays within the names. */
  ghost predicate KeepsOutcome(labelMap: string, th: Thread, sh: Shared, names: set<string>,
                               next: Option<(Thread, Shared)>) {
    next.Some? ==>
      Uses(next.value.0, names)
      && Outcome(labelMap, next.value.0, next.value.1, names) == Outcome(labelMap, th, sh, names)
  }

  lemma OwnCallStep(labelMap: string, me: nat, th: Thread, sh: Shared, holder: Option<Thread>, names: set<string>)
    requires CanStep(labelMap, th, sh, holder) && Uses(th, names) && th.phase.Ready?
    ensures KeepsOutcome(labelMap, th, sh, names, Threads.Step(labelMap, me, th, sh))
  {
    if th.todo != [] {
      ActAlone(th.trace, th.todo[0]);
      ActFile(th.trace, th.todo[0]);
    }
  }

  /** A step within a logger call that does not change where the call is going. */
  lemma SameOutcome(labelMap: string, th: Thread, sh: Shared, after: Thread, sh': Shared, names: set<string>)
    requires Uses(th, names) && CurrentNames(after) <= names
    requires after.todo == th.todo && AfterCall(after) == AfterCall(th)
    requires Settled(labelMap, after, sh', names).files == Settled(labelMap, th, sh, names).files
    ensures KeepsOutcome(labelMap, th, sh, names, Some((after, sh')))
  {
  }

  /** The same for a step that leaves files and table alone. */
  lemma QuietStep(labelMap: string, th: Thread, sh: Shared, after: Thread, sh': Shared, names: set<string>)
    requires Uses(th, names) && CurrentNames(after) <= names
    requires after.todo == th.todo && AfterCall(after) == AfterCall(th) && CurrentFile(after) == CurrentFile(th)
    requires Unwritten(labelMap, after) == Unwritten(labelMap, th)
    requires sh'.table == sh.table && sh'.store == sh.store
    ensures KeepsOutcome(labelMap, th, sh, names, Some((after, sh')))
  {
    assert View(sh', names) == View(sh, names);
    SameOutcome(labelMap, th, sh, after, sh', names);
  }

  lemma OwnLockStep(labelMap: string, me: nat, th: Thread, sh: Shared, holder: Option<Thread>, names: set<string>)
    requires CanStep(labelMap, th, sh, holder) && Uses(th, names)
    requires th.phase.WantLock? || th.phase.Unlocking?
    ensures KeepsOutcome(labelMap, th, sh, names, Threads.Step(labelMap, me, th, sh))
  {
    if Threads.Step(labelMap, me, th, sh).Some? {
      var (after, sh') := Threads.Step(labelMap, me, th, sh).value;
      QuietStep(labelMap, th, sh, after, sh', names);
    }
  }

  lemma OwnLookupStep(labelMap: string, me: nat, th: Thread, sh: Shared, holder: Option<Thread>, names: set<string>)
    requires CanStep(labelMap, th, sh, holder) && Uses(th, names) && th.phase.Lookup?
    ensures KeepsOutcome(labelMap, th, sh, names, Threads.Step(labelMap, me, th, sh))
  {
    var (after, sh') := Threads.Step(labelMap, me, th, sh).value;
    QuietStep(labelMap, th, sh, after, sh', names);
  }

  lemma OwnOpeningStep(labelMap: string, me: nat, th: Thread, sh: Shared, holder: Option<Thread>, names: set<string>)
    requires CanStep(labelMap, th, sh, holder) && Uses(th, names) && th.phase.Opening?
    ensures KeepsOutcome(labelMap, th, sh, names, Threads.Step(labelMap, me, th, sh))
  {
    var (after, sh') := Threads.Step(labelMap, me, th, sh).value;
    assert View(sh', names) == View(sh, names);
    SameOutcome(labelMap, th, sh, after, sh', names);
  }

  /** Writing to a file twice is writing both pieces at once. */
  lemma WriteTwice(files: map<string, seq<string>>, f: string, base: seq<string>, a: seq<string>, b: seq<string>)
    ensures files[f := base + a][f := base + a + b] == files[f := base + (a + b)]
  {
    assert base + a + b == base + (a + b);
  }

  lemma ViewRegister(labelMap: string, sh: Shared, holder: Option<Thread>, names: set<string>, n: string)
    requires SharedOk(labelMap, sh, holder) && Unregistered(holder) == Some(n) && n !in sh.table && n in names
    ensures View(sh.(table := sh.table[n := Handle(n, 0)]), names) == View(sh, names)[n := []]
  {
  }

  /** The label map moves from what opening the file stands for to what is unwritten. */
  lemma RegisteringSettled(labelMap: string, th: Thread, sh: Shared, sh': Shared, h: Handle, names: set<string>)
    requires th.phase.Registering? && th.trace.Some? && th.trace.value.name !in sh.table
             && h.name == th.trace.value.name
    requires View(sh', names) == View(sh, names)[h.name := []]
    ensures var after := Thread(Some(th.trace.value.(file := Some(h))), th.todo,
                                WritingMap(th.phase.record, LabelMapPieces(labelMap)));
            && AfterCall(after) == AfterCall(th)
            && Settled(labelMap, after, sh', names).files == Settled(labelMap, th, sh, names).files
  {
    var pieces, files := LabelMapPieces(labelMap) + Pieces(th.phase.record), View(sh, names);
    assert [] + pieces == pieces;
    assert files[h.name := []][h.name := pieces] == files[h.name := pieces];
  }

  lemma OwnRegisteringStep(labelMap: string, me: nat, th: Thread, sh: Shared, holder: Option<Thread>,
                           names: set<string>)
    requires CanStep(labelMap, th, sh, holder) && Uses(th, names) && th.phase.Registering?
    ensures KeepsOutcome(labelMap, th, sh, names, Threads.Step(labelMap, me, th, sh))
  {
    var (after, sh') := Threads.Step(labelMap, me, th, sh).value;
    ViewRegister(labelMap, sh, holder, names, th.trace.value.name);
    RegisteringSettled(labelMap, th, sh, sh', th.phase.handle, names);
    SameOutcome(labelMap, th, sh, after, sh', names);
  }

  lemma ViewAppend(sh: Shared, names: set<string>, h: Handle, piece: string)
    requires h.name in names && h.name in sh.table && sh.table[h.name] == h && h in sh.store
    requires forall n <- sh.table :: sh.table[n].name == n
    ensures View(sh.Append(h, piece), names) == View(sh, names)[h.name := View(sh, names)[h.name] + [piece]]
  {
  }

  /** A write moves one piece from what is unwritten to the file. */
  lemma SettledWrite(labelMap: string, th: Thread, sh: Shared, after: Thread, piece: string, names: set<string>)
    requires th.HasFile() && th.File().name in names && th.File() in sh.store
    requires th.File().name in sh.table && sh.table[th.File().name] == th.File()
    requires forall n <- sh.table :: sh.table[n].name == n
    requires CurrentFile(th) == CurrentFile(after) == Some(th.File().name)
    requires AfterCall(th) == AfterCall(after)
    requires Unwritten(labelMap, th) == [piece] + Unwritten(labelMap, after)
    ensures Settled(labelMap, after, sh.Append(th.File(), piece), names) == Settled(labelMap, th, sh, names)
  {
    var f := th.File().name;
    var files := View(sh, names);
    ViewAppend(sh, names, th.File(), piece);
    WriteTwice(files, f, files[f], [piece], Unwritten(labelMap, after));
  }

  lemma OwnWriteMapStep(labelMap: string, me: nat, th: Thread, sh: Shared, holder: Option<Thread>, names: set<string>)
    requires CanStep(labelMap, th, sh, holder) && Uses(th, names) && th.phase.WritingMap?
    ensures KeepsOutcome(labelMap, th, sh, names, Threads.Step(labelMap, me, th, sh))
  {
    var rest, r := th.phase.rest, th.phase.record;
    if rest == [] {
      assert rest + Pieces(r) == Pieces(r);
    } else {
      assert rest + Pieces(r) == [rest[0]] + (rest[1..] + Pieces(r));
      SettledWrite(labelMap, th, sh, th.(phase := WritingMap(r, rest[1..])), rest[0], names);
    }
  }

  lemma OwnPrintStep(labelMap: string, me: nat, th: Thread, sh: Shared, holder: Option<Thread>, names: set<string>)
    requires CanStep(labelMap, th, sh, holder) && Uses(th, names) && th.phase.Printing?
    ensures KeepsOutcome(labelMap, th, sh, names, Threads.Step(labelMap, me, th, sh))
  {
    var rest := th.phase.rest;
    if rest == [] {
      var files := View(sh, names);
      assert files[th.File().name] + [] == files[th.File().name];
      assert files[th.File().name := files[th.File().name]] == files;
    } else {
      assert rest == [rest[0]] + rest[1..];
      SettledWrite(labelMap, th, sh, th.(phase := Printing(rest[1..])), rest[0], names);
    }
  }

  lemma OwnStep(labelMap: string, me: nat, th: Thread, sh: Shared, holder: Option<Thread>, names: set<string>)
    requires CanStep(labelMap, th, sh, holder) && Uses(th, names)
    ensures KeepsOutcome(labelMap, th, sh, names, Threads.Step(labelMap, me, th, sh))
  {
    match th.phase
    case Ready => OwnCallStep(labelMap, me, th, sh, holder, names);
    case WantLock(_) => OwnLockStep(labelMap, me, th, sh, holder, names);
    case Lookup(_) => OwnLookupStep(labelMap, me, th, sh, holder, names);
    case Opening(_) => OwnOpeningStep(labelMap, me, th, sh, holder, names);
    case Registering(_, _) => OwnRegisteringStep(labelMap, me, th, sh, holder, names);
    case WritingMap(_, _) => OwnWriteMapStep(labelMap, me, th, sh, holder, names);
    case Unlocking(_) => OwnLockStep(labelMap, me, th, sh, holder, names);
    case Printing(_) => OwnPrintStep(labelMap, me, th, sh, holder, names);
  }

  // ---------- the steps of the others ----------

  /** Files under other names do not show. */
  lemma OtherFiles(sh: Shared, sh': Shared, names: set<string>)
    requires forall n <- sh.table :: sh.table[n].name == n
    requires forall n <- names :: n in sh'.table <==> n in sh.table
    requires forall n <- names :: n in sh.table ==> sh'.table[n] == sh.table[n]
    requires forall h: Handle :: h.name in names ==> (h in sh'.store <==> h in sh.store)
    requires forall h <- sh.store :: h.name in names ==> sh'.store[h] == sh.store[h]
    ensures View(sh', names) == View(sh, names)
  {
  }

  /** A step touches only the file that the thread is opening or has open. */
  lemma TouchesOwn(labelMap: string, u: nat, th: Thread, sh: Shared)
    requires Threads.Step(labelMap, u, th, sh).Some?
    requires th.phase.Registering? ==> th.phase.handle.name == th.trace.value.name
    ensures var sh' := Threads.Step(labelMap, u, th, sh).value.1;
            && (forall n :: n !in CurrentNames(th) ==> (n in sh'.table <==> n in sh.table))
            && (forall n <- sh.table :: n !in CurrentNames(th) ==> sh'.table[n] == sh.table[n])
            && (forall h: Handle :: h.name !in CurrentNames(th) ==> (h in sh'.store <==> h in sh.store))
            && (forall h <- sh.store :: h.name !in CurrentNames(th) ==> sh'.store[h] == sh.store[h])
  {
  }

  /** A step of a thread that uses other names is invisible. */
  lemma OtherStep(labelMap: string, u: nat, th: Thread, sh: Shared, holder: Option<Thread>, own: set<string>,
                  names: set<string>)
    requires CanStep(labelMap, th, sh, holder) && Uses(th, own) && own !! names
    requires Threads.Step(labelMap, u, th, sh).Some?
    ensures View(Threads.Step(labelMap, u, th, sh).value.1, names) == View(sh, names)
  {
    TouchesOwn(labelMap, u, th, sh);
    forall n | n in names
      ensures n !in CurrentNames(th)
    {
      assert n !in own;
    }
    OtherFiles(sh, Threads.Step(labelMap, u, th, sh).value.1, names);
  }

  ghost predicate Separate(g: System, names: seq<set<string>>) {
    && |names| == |g.threads|
    && (forall t: nat :: t < |names| ==> Uses(g.threads[t], names[t]))
    && (forall t: nat, u: nat :: t < u < |names| ==> names[t] !! names[u])
  }

  lemma StepKeepsOutcomes(labelMap: string, g: System, me: nat, names: seq<set<string>>)
    requires Threads.Invariant(labelMap, g) && Separate(g, names) && SystemStep(labelMap, g, me).Some?
    ensures var g' := SystemStep(labelMap, g, me).value;
            Separate(g', names)
            && forall t: nat :: t < |names| ==>
                 Outcome(labelMap, g'.threads[t], g'.sh, names[t]) == Outcome(labelMap, g.threads[t], g.sh, names[t])
  {
    var g' := SystemStep(labelMap, g, me).value;
    InvariantCanStep(labelMap, g, me);
    OwnStep(labelMap, me, g.threads[me], g.sh, Holder(g), names[me]);
    forall t: nat | t < |names| && t != me
      ensures Outcome(labelMap, g'.threads[t], g'.sh, names[t]) == Outcome(labelMap, g.threads[t], g.sh, names[t])
      ensures Uses(g'.threads[t], names[t])
    {
      assert names[me] !! names[t] by {
        if t < me { assert names[t] !! names[me]; }
      }
      OtherStep(labelMap, me, g.threads[me], g.sh, Holder(g), names[me], names[t]);
    }
  }

  lemma {:induction false} ScheduleKeepsOutcomes(labelMap: string, g: System, schedule: seq<nat>,
                                                 names: seq<set<string>>)
    requires Threads.Invariant(labelMap, g) && Separate(g, names) && Schedule(labelMap, g, schedule).Some?
    ensures var g' := Schedule(labelMap, g, schedule).value;
            Separate(g', names) && Threads.Invariant(labelMap, g')
            && forall t: nat :: t < |names| ==>
                 Outcome(labelMap, g'.threads[t], g'.sh, names[t]) == Outcome(labelMap, g.threads[t], g.sh, names[t])
    decreases schedule
  {
    if schedule != [] {
      Threads.StepKeepsInvariant(labelMap, g, schedule[0]);
      StepKeepsOutcomes(labelMap, g, schedule[0], names);
      ScheduleKeepsOutcomes(labelMap, SystemStep(labelMap, g, schedule[0]).value, schedule[1..], names);
    }
  }

  // ---------- the theorem ----------

  /** The names of each thread's sessions, running alone. */
  function NamesOf(th: Thread): set<string> {
    SessionNames(Alone(th.trace), th.todo)
  }

  /** A thread running alone from the beginning. */
  function RunAlone(labelMap: string, th: Thread): Result<State, Stop> {
    Run(labelMap, State(Alone(th.trace), map[]), th.todo)
  }

  ghost predicate DisjointNames(g: System) {
    forall t: nat, u: nat :: t < u < |g.threads| ==> NamesOf(g.threads[t]) !! NamesOf(g.threads[u])
  }

  lemma {:induction false} RunOpensNames(labelMap: string, s: State, calls: seq<Call>)
    requires Run(labelMap, s, calls).Ok?
    ensures Run(labelMap, s, calls).value.files.Keys == s.files.Keys + SessionNames(s.trace, calls)
    decreases calls
  {
    if calls != [] {
      RunOpensNames(labelMap, Logger.Step(labelMap, s, calls[0]).value, calls[1..]);
    }
  }

  /** Whatever the schedule, what a thread has done and has still to do adds up to its run alone. */
  lemma OutcomeKept(labelMap: string, g: System, schedule: seq<nat>, t: nat)
    requires Initial(g) && DisjointNames(g) && t < |g.threads|
    requires Schedule(labelMap, g, schedule).Some?
    ensures var g' := Schedule(labelMap, g, schedule).value;
            && Threads.Invariant(labelMap, g') && t < |g'.threads|
            && Outcome(labelMap, g'.threads[t], g'.sh, NamesOf(g.threads[t])) == RunAlone(labelMap, g.threads[t])
  {
    var names := seq(|g.threads|, i requires 0 <= i < |g.threads| => NamesOf(g.threads[i]));
    InitialInvariant(labelMap, g);
    forall i: nat | i < |names|
      ensures Uses(g.threads[i], names[i])
      ensures Settled(labelMap, g.threads[i], g.sh, names[i]) == State(Alone(g.threads[i].trace), map[])
    {
      assert g.threads[i] in g.threads;
      assert View(g.sh, names[i]) == map[];
    }
    ScheduleKeepsOutcomes(labelMap, g, schedule, names);
    ScheduleKeepsInvariant(labelMap, g, schedule);
  }

  /**
   Non-interference over all interleavings: if the threads use disjoint session file names,
   then after any schedule a thread that has finished has left in each of its files exactly
   the content of its run alone - the label map, then its own writes - and has opened exactly
   the files of that run.
   */
  lemma NonInterference(labelMap: string, g: System, schedule: seq<nat>, t: nat)
    requires Initial(g) && DisjointNames(g) && t < |g.threads|
    requires Schedule(labelMap, g, schedule).Some?
    requires t < |Schedule(labelMap, g, schedule).value.threads|
    requires Schedule(labelMap, g, schedule).value.threads[t].Finished()
    ensures var sh := Schedule(labelMap, g, schedule).value.sh;
            var alone := RunAlone(labelMap, g.threads[t]);
            && alone.Ok?
            && alone.value.files.Keys == NamesOf(g.threads[t])
            && forall n <- NamesOf(g.threads[t]) ::
                 n in sh.table && sh.table[n] in sh.store && sh.store[sh.table[n]] == alone.value.files[n]
  {
    OutcomeKept(labelMap, g, schedule, t);
    var g' := Schedule(labelMap, g, schedule).value;
    RunOpensNames(labelMap, State(Alone(g.threads[t].trace), map[]), g.threads[t].todo);
    assert RunAlone(labelMap, g.threads[t]).value.files == View(g'.sh, NamesOf(g.threads[t]));
  }

  lemma {:induction false} RunExtends(labelMap: string, s: State, calls: seq<Call>)
    requires Run(labelMap, s, calls).Ok?
    ensures Extends(s.files, Run(labelMap, s, calls).value.files)
    decreases calls
  {
    if calls != [] {
      RunExtends(labelMap, Logger.Step(labelMap, s, calls[0]).value, calls[1..]);
    }
  }

  /** At every moment, finished or not, each registered file of a thread holds a prefix of what
      the thread's run alone leaves in it. */
  lemma AlwaysPrefix(labelMap: string, g: System, schedule: seq<nat>, t: nat, n: string)
    requires Initial(g) && DisjointNames(g) && t < |g.threads| && n in NamesOf(g.threads[t])
    requires Schedule(labelMap, g, schedule).Some?
    requires RunAlone(labelMap, g.threads[t]).Ok?
    requires n in Schedule(labelMap, g, schedule).value.sh.table
    ensures var sh := Schedule(labelMap, g, schedule).value.sh;
            sh.table[n] in sh.store && n in RunAlone(labelMap, g.threads[t]).value.files
            && sh.store[sh.table[n]] <= RunAlone(labelMap, g.threads[t]).value.files[n]
  {
    OutcomeKept(labelMap, g, schedule, t);
    PrefixOfOutcome(labelMap, Schedule(labelMap, g, schedule).value, t, NamesOf(g.threads[t]), n);
  }

  lemma PrefixOfOutcome(labelMap: string, g: System, t: nat, names: set<string>, n: string)
    requires Threads.Invariant(labelMap, g) && t < |g.threads| && n in names && n in g.sh.table
    requires Outcome(labelMap, g.threads[t], g.sh, names).Ok?
    ensures var files := Outcome(labelMap, g.threads[t], g.sh, names).value.files;
            g.sh.table[n] in g.sh.store && n in files && g.sh.store[g.sh.table[n]] <= files[n]
  {
    var settled := Settled(labelMap, g.threads[t], g.sh, names);
    RunExtends(labelMap, settled, g.threads[t].todo);
    assert n in View(g.sh, names);
    assert View(g.sh, names)[n] <= settled.files[n];
  }
}
