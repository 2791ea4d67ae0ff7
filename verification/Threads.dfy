/**
 Many threads over the shared, lock-protected map of open files
 (profile-func/trace_logger.cpp:3-5, 14-40, 201-247). Taking the lock, looking a name up,
 opening a file, registering it, each write and giving the lock back are separate steps;
 a schedule is any sequence of thread numbers.
 */
module Threads {
  import opened Wrappers
  import opened TraceText
  import opened TraceFile
  import opened Logger

  /** What gzopen returns: the `opens`-th opening of a name. */
  datatype Handle = Handle(name: string, opens: nat)

  /** Where a thread is inside a logger call. `record` is what log_entry prints at the end. */
  datatype Phase =
    | Ready
    | WantLock(record: Record)
    | Lookup(record: Record)
    | Opening(record: Record)
    | Registering(record: Record, handle: Handle)
    | WritingMap(record: Record, rest: seq<string>)
    | Unlocking(record: Record)
    | Printing(rest: seq<string>)

  datatype Thread = Thread(trace: Option<Info<Handle>>, todo: seq<Call>, phase: Phase) {
    predicate Holding() {
      phase.Lookup? || phase.Opening? || phase.Registering? || phase.WritingMap? || phase.Unlocking?
    }

    predicate Entering() {
      Holding() || phase.WantLock?
    }

    predicate HasFile() {
      trace.Some? && trace.value.file.Some?
    }

    function File(): Handle
      requires HasFile()
    {
      trace.value.file.value
    }

    predicate Finished() {
      todo == [] && phase.Ready?
    }
  }

  /** `lock` names the holder; `table` is gz_files; `store` the content behind each handle. */
  datatype Shared = Shared(lock: Option<nat>, table: map<string, Handle>, store: map<Handle, seq<string>>,
                           opens: map<string, nat>) {
    function Opens(name: string): nat {
      if name in opens then opens[name] else 0
    }

    function Append(h: Handle, piece: string): Shared
      requires h in store
    {
      this.(store := store[h := store[h] + [piece]])
    }
  }

  /** One step of thread `me`; None when it is finished, waits for the lock, or has stopped. */
  function Step(labelMap: string, me: nat, th: Thread, sh: Shared): Option<(Thread, Shared)> {
    if th.Entering() && th.trace.None? then None else
      match th.phase
      case Ready =>
        if th.todo == [] then None else
          (match Act(th.trace, th.todo[0])
           case Silent(t) => Some((Thread(t, th.todo[1..], Ready), sh))
           case Print(t, _, r) => Some((Thread(t, th.todo[1..], Printing(Pieces(r))), sh))
           case OpenPrint(i, r) => Some((Thread(Some(i), th.todo[1..], WantLock(r)), sh))
           case Halt(_) => None)
      case WantLock(r) =>
        if sh.lock.Some? then None else Some((th.(phase := Lookup(r)), sh.(lock := Some(me))))
      case Lookup(r) =>
        var i := th.trace.value;
        if i.name in sh.table then
          Some((Thread(Some(i.(file := Some(sh.table[i.name]))), th.todo, Unlocking(r)), sh))
        else Some((th.(phase := Opening(r)), sh))
      case Opening(r) =>
        var name := th.trace.value.name;
        var h := Handle(name, sh.Opens(name));
        Some((th.(phase := Registering(r, h)),
              sh.(store := sh.store[h := []], opens := sh.opens[name := sh.Opens(name) + 1])))
      case Registering(r, h) =>
        var i := th.trace.value;
        Some((Thread(Some(i.(file := Some(h))), th.todo, WritingMap(r, LabelMapPieces(labelMap))),
              sh.(table := sh.table[i.name := h])))
      case WritingMap(r, rest) =>
        if rest == [] then Some((th.(phase := Unlocking(r)), sh))
        else if !th.HasFile() || th.File() !in sh.store then None
        else Some((th.(phase := WritingMap(r, rest[1..])), sh.Append(th.File(), rest[0])))
      case Unlocking(r) =>
        Some((th.(phase := Printing(Pieces(r))), sh.(lock := None)))
      case Printing(rest) =>
        if rest == [] then Some((th.(phase := Ready), sh))
        else if !th.HasFile() || th.File() !in sh.store then None
        else Some((th.(phase := Printing(rest[1..])), sh.Append(th.File(), rest[0])))
  }

  datatype System = System(threads: seq<Thread>, sh: Shared)

  function SystemStep(labelMap: string, g: System, me: nat): Option<System> {
    if me >= |g.threads| then None else
      match Step(labelMap, me, g.threads[me], g.sh)
      case None => None
      case Some((th, sh)) => Some(System(g.threads[me := th], sh))
  }

  /** The system after a schedule, if every step of the schedule can be taken. */
  function Schedule(labelMap: string, g: System, schedule: seq<nat>): Option<System>
    decreases schedule
  {
    if schedule == [] then Some(g) else
      match SystemStep(labelMap, g, schedule[0])
      case None => None
      case Some(g') => Schedule(labelMap, g', schedule[1..])
  }

  const NOTHING_OPEN := Shared(None, map[], map[], map[])

  /** Threads about to make their calls: each has no trace yet, or one that was only named. */
  ghost predicate Initial(g: System) {
    && g.sh == NOTHING_OPEN
    && forall th <- g.threads ::
         th.phase.Ready? && (th.trace.Some? ==> th.trace.value == NewTrace(th.trace.value.name))
  }

  // ---------- one opening per name, label map first ----------

  /** The label map is completely written. */
  ghost predicate Headed(labelMap: string, sh: Shared, h: Handle) {
    h in sh.store && LabelMapPieces(labelMap) <= sh.store[h]
  }

  ghost predicate ThreadOk(labelMap: string, th: Thread, sh: Shared) {
    && (th.Entering() ==> th.trace.Some?)
    && (th.HasFile() ==> th.File().name in sh.table && sh.table[th.File().name] == th.File())
    && (th.HasFile() && !(th.phase.WritingMap? && th.phase.rest != []) ==> Headed(labelMap, sh, th.File()))
    && (th.phase.Opening? || th.phase.Registering? ==> th.trace.value.name !in sh.table)
    && (th.phase.Registering? ==> th.phase.handle == Handle(th.trace.value.name, 0))
    && (th.phase.Unlocking? || th.phase.WritingMap? ==> th.HasFile() && th.File().name == th.trace.value.name)
    && (th.phase.Printing? ==> th.HasFile())
    && (th.phase.WritingMap? && th.phase.rest != [] ==>
          th.File() in sh.store && sh.store[th.File()] + th.phase.rest == LabelMapPieces(labelMap))
  }

  /** The name that the lock holder has opened but not yet registered. */
  function Unregistered(holder: Option<Thread>): Option<string> {
    if holder.Some? && holder.value.phase.Registering? && holder.value.trace.Some?
    then Some(holder.value.trace.value.name) else None
  }

  /** The handle to which the lock holder has yet to write a part of the label map. */
  function BeingHeaded(holder: Option<Thread>): Option<Handle> {
    if holder.Some? && holder.value.phase.WritingMap? && holder.value.phase.rest != [] && holder.value.HasFile()
    then Some(holder.value.File()) else None
  }

  ghost predicate SharedOk(labelMap: string, sh: Shared, holder: Option<Thread>) {
    && (forall n <- sh.table :: sh.table[n] == Handle(n, 0) && Handle(n, 0) in sh.store)
    && (forall h <- sh.store :: h.opens == 0 && (h.name in sh.table || Unregistered(holder) == Some(h.name)))
    && (forall n :: sh.Opens(n) == if n in sh.table || Unregistered(holder) == Some(n) then 1 else 0)
    && (forall h <- sh.store :: h.name in sh.table && BeingHeaded(holder) != Some(h) ==> Headed(labelMap, sh, h))
    && (forall h <- sh.store :: h.name !in sh.table ==> sh.store[h] == [])
    && (Unregistered(holder).Some? ==> Handle(Unregistered(holder).value, 0) in sh.store)
  }

  function Holder(g: System): Option<Thread> {
    if g.sh.lock.Some? && g.sh.lock.value < |g.threads| then Some(g.threads[g.sh.lock.value]) else None
  }

  ghost predicate Invariant(labelMap: string, g: System) {
    && (g.sh.lock.Some? ==> g.sh.lock.value < |g.threads|)
    && (forall t: nat :: t < |g.threads| ==> (g.threads[t].Holding() <==> g.sh.lock == Some(t)))
    && (forall t: nat :: t < |g.threads| ==> ThreadOk(labelMap, g.threads[t], g.sh))
    && SharedOk(labelMap, g.sh, Holder(g))
  }

  lemma InitialInvariant(labelMap: string, g: System)
    requires Initial(g)
    ensures Invariant(labelMap, g)
  {
    forall t: nat | t < |g.threads|
      ensures ThreadOk(labelMap, g.threads[t], g.sh) && !g.threads[t].Holding()
    {
      assert g.threads[t] in g.threads;
    }
  }

  /** A step of one thread keeps what the other threads rely on: registered handles stay, and
      files grow only at their end. */
  ghost predicate Grows(before: Shared, after: Shared) {
    && (forall n <- before.table :: n in after.table && after.table[n] == before.table[n])
    && (forall h <- before.store :: h in after.store && before.store[h] <= after.store[h])
  }

  /** The thread that holds the lock after the step. */
  function NextHolder(th: Thread, after: Thread, holder: Option<Thread>): Option<Thread> {
    if after.Holding() then Some(after) else if th.Holding() then None else holder
  }

  /** What thread `th` may rely on when it takes a step; `holder` is the thread with the lock. */
  ghost predicate CanStep(labelMap: string, th: Thread, sh: Shared, holder: Option<Thread>) {
    && ThreadOk(labelMap, th, sh) && SharedOk(labelMap, sh, holder)
    && (th.Holding() ==> holder == Some(th))
    && (sh.lock.None? ==> holder.None?)
    && (holder.Some? ==> holder.value.Holding() && ThreadOk(labelMap, holder.value, sh))
    && (!th.Holding() && th.HasFile() ==> BeingHeaded(holder) != Some(th.File()))
  }

  ghost predicate Kept(labelMap: string, th: Thread, sh: Shared, holder: Option<Thread>,
                       next: Option<(Thread, Shared)>) {
    next.Some? ==>
      && ThreadOk(labelMap, next.value.0, next.value.1)
      && SharedOk(labelMap, next.value.1, NextHolder(th, next.value.0, holder))
      && Grows(sh, next.value.1)
  }

  /** A logger call either keeps the file of the trace or starts a trace without one. */
  lemma ActFile(trace: Option<Info<Handle>>, c: Call)
    ensures match Act(trace, c)
            case Silent(t) => t.Some? && t.value.file.Some? ==> trace.Some? && trace.value.file == t.value.file
            case Print(t, f, r) => t.Some? && trace.Some? && trace.value.file == t.value.file == Some(f)
            case OpenPrint(i, r) => i.file.Some? ==> trace.Some? && trace.value.file == i.file
            case Halt(_) => true
  {
  }

  /** What a thread knows about the files stays true while another thread takes a step. */
  lemma OthersKeep(labelMap: string, u: Thread, before: Shared, after: Shared)
    requires ThreadOk(labelMap, u, before) && Grows(before, after)
    requires u.Holding() ==> before.table == after.table
    requires u.phase.WritingMap? && u.phase.rest != [] ==>
               u.File() in after.store && after.store[u.File()] == before.store[u.File()]
    ensures ThreadOk(labelMap, u, after)
  {
    if u.HasFile() && Headed(labelMap, before, u.File()) {
      assert Headed(labelMap, after, u.File());
    }
  }

  lemma ReadyStep(labelMap: string, me: nat, th: Thread, sh: Shared, holder: Option<Thread>)
    requires CanStep(labelMap, th, sh, holder) && th.phase.Ready?
    ensures Kept(labelMap, th, sh, holder, Step(labelMap, me, th, sh))
  {
    if th.todo != [] {
      ActFile(th.trace, th.todo[0]);
    }
  }

  lemma SameShared(labelMap: string, sh: Shared, after: Shared, holder: Option<Thread>, next: Option<Thread>)
    requires SharedOk(labelMap, sh, holder)
    requires after.table == sh.table && after.store == sh.store && after.opens == sh.opens
    requires Unregistered(next) == Unregistered(holder) && BeingHeaded(next) == BeingHeaded(holder)
    ensures SharedOk(labelMap, after, next) && Grows(sh, after)
  {
  }

  lemma WantLockStep(labelMap: string, me: nat, th: Thread, sh: Shared, holder: Option<Thread>)
    requires CanStep(labelMap, th, sh, holder) && th.phase.WantLock?
    ensures Kept(labelMap, th, sh, holder, Step(labelMap, me, th, sh))
  {
    if sh.lock.None? {
      var after := th.(phase := Lookup(th.phase.record));
      SameShared(labelMap, sh, sh.(lock := Some(me)), holder, Some(after));
    }
  }

  lemma UnlockingStep(labelMap: string, me: nat, th: Thread, sh: Shared, holder: Option<Thread>)
    requires CanStep(labelMap, th, sh, holder) && th.phase.Unlocking?
    ensures Kept(labelMap, th, sh, holder, Step(labelMap, me, th, sh))
  {
    SameShared(labelMap, sh, sh.(lock := None), holder, None);
  }

  lemma FoundFile(labelMap: string, sh: Shared, holder: Option<Thread>, name: string)
    requires SharedOk(labelMap, sh, holder) && BeingHeaded(holder).None? && name in sh.table
    ensures sh.table[name] == Handle(name, 0) && Headed(labelMap, sh, Handle(name, 0))
  {
    assert Handle(name, 0) in sh.store;
  }

  lemma LookupStep(labelMap: string, me: nat, th: Thread, sh: Shared, holder: Option<Thread>)
    requires CanStep(labelMap, th, sh, holder) && th.phase.Lookup?
    ensures Kept(labelMap, th, sh, holder, Step(labelMap, me, th, sh))
  {
    var after, name := Step(labelMap, me, th, sh).value.0, th.trace.value.name;
    assert ThreadOk(labelMap, after, sh) by {
      if name in sh.table {
        FoundFile(labelMap, sh, holder, name);
      }
    }
    SameShared(labelMap, sh, sh, holder, Some(after));
  }

  /** Opening an unregistered name that has never been opened. */
  lemma OpenFile(labelMap: string, sh: Shared, holder: Option<Thread>, next: Option<Thread>, name: string)
    requires SharedOk(labelMap, sh, holder) && Unregistered(holder).None? && BeingHeaded(holder).None?
    requires name !in sh.table && Unregistered(next) == Some(name) && BeingHeaded(next).None?
    ensures sh.Opens(name) == 0
    ensures SharedOk(labelMap, sh.(store := sh.store[Handle(name, 0) := []], opens := sh.opens[name := 1]), next)
    ensures Grows(sh, sh.(store := sh.store[Handle(name, 0) := []], opens := sh.opens[name := 1]))
  {
  }

  lemma OpeningStep(labelMap: string, me: nat, th: Thread, sh: Shared, holder: Option<Thread>)
    requires CanStep(labelMap, th, sh, holder) && th.phase.Opening?
    ensures Kept(labelMap, th, sh, holder, Step(labelMap, me, th, sh))
  {
    var name := th.trace.value.name;
    var after := th.(phase := Registering(th.phase.record, Handle(name, 0)));
    OpenFile(labelMap, sh, holder, Some(after), name);
    assert Step(labelMap, me, th, sh).value.0 == after;
  }

  /** Registering the name that was opened. */
  lemma RegisterFile(labelMap: string, sh: Shared, holder: Option<Thread>, next: Option<Thread>, name: string)
    requires SharedOk(labelMap, sh, holder) && Unregistered(holder) == Some(name) && name !in sh.table
    requires Unregistered(next).None? && BeingHeaded(next) == Some(Handle(name, 0))
    ensures Handle(name, 0) in sh.store && sh.store[Handle(name, 0)] == []
    ensures SharedOk(labelMap, sh.(table := sh.table[name := Handle(name, 0)]), next)
    ensures Grows(sh, sh.(table := sh.table[name := Handle(name, 0)]))
  {
  }

  lemma RegisteringStep(labelMap: string, me: nat, th: Thread, sh: Shared, holder: Option<Thread>)
    requires CanStep(labelMap, th, sh, holder) && th.phase.Registering?
    ensures Kept(labelMap, th, sh, holder, Step(labelMap, me, th, sh))
  {
    var name := th.trace.value.name;
    var (after, sh') := Step(labelMap, me, th, sh).value;
    RegisterFile(labelMap, sh, holder, Some(after), name);
    assert sh.store[Handle(name, 0)] + LabelMapPieces(labelMap) == LabelMapPieces(labelMap);
  }

  lemma AppendKeeps(labelMap: string, sh: Shared, h: Handle, piece: string)
    requires h in sh.store
    ensures Grows(sh, sh.Append(h, piece))
    ensures forall k :: Headed(labelMap, sh, k) ==> Headed(labelMap, sh.Append(h, piece), k)
  {
  }

  lemma WritingMapStep(labelMap: string, me: nat, th: Thread, sh: Shared, holder: Option<Thread>)
    requires CanStep(labelMap, th, sh, holder) && th.phase.WritingMap?
    ensures Kept(labelMap, th, sh, holder, Step(labelMap, me, th, sh))
  {
    if th.phase.rest != [] {
      WritePieceStep(labelMap, me, th, sh, holder);
    }
  }

  lemma WritePieceStep(labelMap: string, me: nat, th: Thread, sh: Shared, holder: Option<Thread>)
    requires CanStep(labelMap, th, sh, holder) && th.phase.WritingMap? && th.phase.rest != []
    ensures Kept(labelMap, th, sh, holder, Step(labelMap, me, th, sh))
  {
    AppendKeeps(labelMap, sh, th.File(), th.phase.rest[0]);
    FirstOfRest(sh.store[th.File()], th.phase.rest);
  }

  lemma FirstOfRest(written: seq<string>, rest: seq<string>)
    requires rest != []
    ensures written + rest == written + [rest[0]] + rest[1..]
    ensures |rest| == 1 ==> written + rest == written + [rest[0]]
  {
  }

  /** A file that is being printed to is not one whose label map is being written. */
  lemma PrintPiece(labelMap: string, sh: Shared, holder: Option<Thread>, h: Handle, piece: string)
    requires SharedOk(labelMap, sh, holder) && h in sh.store && h.name in sh.table
    ensures SharedOk(labelMap, sh.Append(h, piece), holder) && Grows(sh, sh.Append(h, piece))
  {
    AppendKeeps(labelMap, sh, h, piece);
  }

  lemma PrintsOn(labelMap: string, th: Thread, sh: Shared, phase: Phase)
    requires ThreadOk(labelMap, th, sh) && th.phase.Printing? && (phase.Printing? || phase.Ready?)
    ensures ThreadOk(labelMap, th.(phase := phase), sh)
  {
  }

  lemma PrintPieceStep(labelMap: string, th: Thread, sh: Shared, holder: Option<Thread>)
    requires CanStep(labelMap, th, sh, holder) && th.phase.Printing? && th.phase.rest != []
    ensures th.File() in sh.store
    ensures var sh' := sh.Append(th.File(), th.phase.rest[0]);
            && SharedOk(labelMap, sh', holder) && Grows(sh, sh')
            && ThreadOk(labelMap, th.(phase := Printing(th.phase.rest[1..])), sh')
  {
    var h, piece := th.File(), th.phase.rest[0];
    PrintPiece(labelMap, sh, holder, h, piece);
    OthersKeep(labelMap, th, sh, sh.Append(h, piece));
    PrintsOn(labelMap, th, sh.Append(h, piece), Printing(th.phase.rest[1..]));
  }

  lemma PrintingStep(labelMap: string, me: nat, th: Thread, sh: Shared, holder: Option<Thread>)
    requires CanStep(labelMap, th, sh, holder) && th.phase.Printing?
    ensures Kept(labelMap, th, sh, holder, Step(labelMap, me, th, sh))
  {
    if th.phase.rest == [] {
      PrintsOn(labelMap, th, sh, Ready);
      assert NextHolder(th, th.(phase := Ready), holder) == holder;
    } else {
      PrintPieceStep(labelMap, th, sh, holder);
      assert NextHolder(th, th.(phase := Printing(th.phase.rest[1..])), holder) == holder;
    }
  }

  lemma ThreadStepKeeps(labelMap: string, me: nat, th: Thread, sh: Shared, holder: Option<Thread>)
    requires CanStep(labelMap, th, sh, holder)
    ensures Kept(labelMap, th, sh, holder, Step(labelMap, me, th, sh))
  {
    match th.phase
    case Ready => ReadyStep(labelMap, me, th, sh, holder);
    case WantLock(_) => WantLockStep(labelMap, me, th, sh, holder);
    case Lookup(_) => LookupStep(labelMap, me, th, sh, holder);
    case Opening(_) => OpeningStep(labelMap, me, th, sh, holder);
    case Registering(_, _) => RegisteringStep(labelMap, me, th, sh, holder);
    case WritingMap(_, _) => WritingMapStep(labelMap, me, th, sh, holder);
    case Unlocking(_) => UnlockingStep(labelMap, me, th, sh, holder);
    case Printing(_) => PrintingStep(labelMap, me, th, sh, holder);
  }

  /** A thread outside the lock changes the shared state only by appending to its file, which
      is not one whose label map is being written. */
  lemma OutsideLock(labelMap: string, me: nat, th: Thread, sh: Shared, holder: Option<Thread>)
    requires CanStep(labelMap, th, sh, holder) && !th.Holding() && Step(labelMap, me, th, sh).Some?
    ensures var sh' := Step(labelMap, me, th, sh).value.1;
            sh'.table == sh.table && sh'.opens == sh.opens
            && forall h <- sh.store :: BeingHeaded(holder) == Some(h) ==> h in sh'.store && sh'.store[h] == sh.store[h]
  {
  }

  lemma NotYetHeaded(labelMap: string, u: Thread, sh: Shared)
    requires ThreadOk(labelMap, u, sh) && u.phase.WritingMap? && u.phase.rest != []
    ensures !Headed(labelMap, sh, u.File())
  {
    assert |sh.store[u.File()]| + |u.phase.rest| == |LabelMapPieces(labelMap)|;
  }

  lemma InvariantCanStep(labelMap: string, g: System, me: nat)
    requires Invariant(labelMap, g) && me < |g.threads|
    ensures CanStep(labelMap, g.threads[me], g.sh, Holder(g))
  {
    if BeingHeaded(Holder(g)).Some? {
      NotYetHeaded(labelMap, Holder(g).value, g.sh);
    }
  }

  lemma LockFollows(labelMap: string, me: nat, th: Thread, sh: Shared)
    requires Step(labelMap, me, th, sh).Some?
    requires th.Holding() ==> sh.lock == Some(me)
    ensures var (th', sh') := Step(labelMap, me, th, sh).value;
            sh'.lock == if th'.Holding() then Some(me) else if th.Holding() then None else sh.lock
  {
  }

  /** What is kept for the other threads. */
  lemma OthersStay(labelMap: string, g: System, me: nat, u: nat)
    requires Invariant(labelMap, g) && SystemStep(labelMap, g, me).Some? && u < |g.threads| && u != me
    ensures var g' := SystemStep(labelMap, g, me).value;
            ThreadOk(labelMap, g.threads[u], g'.sh) && g'.threads[u] == g.threads[u]
  {
    var th := g.threads[me];
    var g' := SystemStep(labelMap, g, me).value;
    InvariantCanStep(labelMap, g, me);
    ThreadStepKeeps(labelMap, me, th, g.sh, Holder(g));
    if g.threads[u].Holding() {
      OutsideLock(labelMap, me, th, g.sh, Holder(g));
    }
    OthersKeep(labelMap, g.threads[u], g.sh, g'.sh);
  }

  /** Only the thread that took the step may have taken the lock or given it back. */
  lemma LockKept(labelMap: string, g: System, me: nat)
    requires Invariant(labelMap, g) && SystemStep(labelMap, g, me).Some?
    ensures var g' := SystemStep(labelMap, g, me).value;
            && (g'.sh.lock.Some? ==> g'.sh.lock.value < |g'.threads|)
            && (forall t: nat :: t < |g'.threads| ==> (g'.threads[t].Holding() <==> g'.sh.lock == Some(t)))
            && Holder(g') == NextHolder(g.threads[me], g'.threads[me], Holder(g))
  {
    LockFollows(labelMap, me, g.threads[me], g.sh);
  }

  lemma StepKeepsInvariant(labelMap: string, g: System, me: nat)
    requires Invariant(labelMap, g) && SystemStep(labelMap, g, me).Some?
    ensures var g' := SystemStep(labelMap, g, me).value;
            Invariant(labelMap, g') && Grows(g.sh, g'.sh) && |g'.threads| == |g.threads|
  {
    var g' := SystemStep(labelMap, g, me).value;
    InvariantCanStep(labelMap, g, me);
    ThreadStepKeeps(labelMap, me, g.threads[me], g.sh, Holder(g));
    LockKept(labelMap, g, me);
    forall u: nat | u < |g.threads|
      ensures ThreadOk(labelMap, g'.threads[u], g'.sh)
    {
      if u != me {
        OthersStay(labelMap, g, me, u);
      }
    }
  }

  /** The invariant holds after every schedule, and along it files only grow at their end and
      registered handles stay. */
  lemma {:induction false} ScheduleKeepsInvariant(labelMap: string, g: System, schedule: seq<nat>)
    requires Invariant(labelMap, g) && Schedule(labelMap, g, schedule).Some?
    ensures var g' := Schedule(labelMap, g, schedule).value;
            Invariant(labelMap, g') && Grows(g.sh, g'.sh) && |g'.threads| == |g.threads|
    decreases schedule
  {
    if schedule != [] {
      StepKeepsInvariant(labelMap, g, schedule[0]);
      ScheduleKeepsInvariant(labelMap, SystemStep(labelMap, g, schedule[0]).value, schedule[1..]);
    }
  }

  ghost predicate SameName(t: Thread, u: Thread) {
    t.HasFile() && u.HasFile() && t.File().name == u.File().name
  }

  /**
   One opening per name, label map first: whatever the schedule, each name is opened at most
   once; every file either starts with the whole label map or holds only a part of it, which
   the lock holder is still writing; and threads that write to the same name share one handle. From
   a file with the whole label map a reader gets the registered map, if that does not hold the line
   that ends its section.
   */
  lemma OneOpening(labelMap: string, g: System, schedule: seq<nat>)
    requires Initial(g) && Schedule(labelMap, g, schedule).Some?
    ensures var g' := Schedule(labelMap, g, schedule).value;
            && (forall n :: g'.sh.Opens(n) <= 1)
            && (forall h <- g'.sh.store ::
                  Headed(labelMap, g'.sh, h) || (g'.sh.lock.Some? && g'.sh.store[h] <= LabelMapPieces(labelMap)))
            && (forall h <- g'.sh.store :: Headed(labelMap, g'.sh, h) && !Holds(labelMap, MAP_END) ==>
                  ReadMap(Concat(g'.sh.store[h])) == Some((labelMap, Concat(g'.sh.store[h][3..]))))
            && (forall t: nat, u: nat | t < |g'.threads| && u < |g'.threads| ::
                  SameName(g'.threads[t], g'.threads[u]) ==> g'.threads[t].File() == g'.threads[u].File())
  {
    InitialInvariant(labelMap, g);
    ScheduleKeepsInvariant(labelMap, g, schedule);
    var g' := Schedule(labelMap, g, schedule).value;
    forall t: nat | t < |g'.threads| && g'.threads[t].HasFile()
      ensures g'.threads[t].File() == Handle(g'.threads[t].File().name, 0)
    {
      assert ThreadOk(labelMap, g'.threads[t], g'.sh);
    }
    forall h | h in g'.sh.store && Headed(labelMap, g'.sh, h)
      ensures ReadMap(Concat(g'.sh.store[h])) == Some((labelMap, Concat(g'.sh.store[h][3..])))
              <==> !Holds(labelMap, MAP_END)
    {
      HeadedRead(labelMap, g'.sh.store[h]);
    }
    forall h | h in g'.sh.store && !Headed(labelMap, g'.sh, h)
      ensures g'.sh.lock.Some? && g'.sh.store[h] <= LabelMapPieces(labelMap)
    {
      if h.name in g'.sh.table {
        assert ThreadOk(labelMap, Holder(g').value, g'.sh);
      }
    }
  }

  /** Once all threads are joined the table that fin_main walks over names every handle that
      was ever opened, and each under one name only. */
  lemma ClosedOnce(labelMap: string, g: System, schedule: seq<nat>)
    requires Initial(g) && Schedule(labelMap, g, schedule).Some?
    requires forall th <- Schedule(labelMap, g, schedule).value.threads :: th.Finished()
    ensures var sh := Schedule(labelMap, g, schedule).value.sh;
            && (forall h <- sh.store :: h.name in sh.table && sh.table[h.name] == h && Headed(labelMap, sh, h))
            && (forall m <- sh.table, n <- sh.table :: sh.table[m] == sh.table[n] ==> m == n)
            && (forall n <- sh.table :: sh.table[n] in sh.store)
  {
    InitialInvariant(labelMap, g);
    ScheduleKeepsInvariant(labelMap, g, schedule);
    var g' := Schedule(labelMap, g, schedule).value;
    if g'.sh.lock.Some? {
      assert g'.threads[g'.sh.lock.value] in g'.threads;
    }
    forall h | h in g'.sh.store
      ensures h.name in g'.sh.table && g'.sh.table[h.name] == h && Headed(labelMap, g'.sh, h)
    {
      assert h == Handle(h.name, h.opens);
    }
  }
}
