/**
 Whole runs of one thread in top-level mode. A complete run is a sequence of items; a
 function activation brackets the items of its body with the calls that the pass inserts
 at its entry (full-trace/full_trace.cpp:487-493) and before its return (1104-1106).
 */
module Runs {
  import opened Wrappers
  import opened Sequences
  import opened TraceText
  import opened Logger

  /** Tracked: named in WORKLOAD. Untracked: instrumented only. Bare: no status updates at
      all, because the pass skips the body of the function. */
  datatype Kind = Tracked | Untracked | Bare

  datatype Item =
    | Emit(call: Call)
    | Rename(name: string)
    | Activation(func: string, kind: Kind, nparams: int, items: seq<Item>)
  {
    ghost predicate EntersTracked() {
      Activation? && kind.Tracked?
    }

    function Prologue(): seq<Call>
      requires Activation?
    {
      if kind.Tracked? then [Update(func, 0, true, true), LogEntry(func, nparams)] else []
    }

    function Epilogue(): seq<Call>
      requires Activation?
    {
      if kind.Bare? then [] else [Update(func, RET_OP, kind.Tracked?, true)]
    }
  }

  function ItemCalls(i: Item): seq<Call>
    decreases i
  {
    match i
    case Emit(c) => [c]
    case Rename(n) => [SetName(n)]
    case Activation(_, _, _, items) => i.Prologue() + Calls(items) + i.Epilogue()
  }

  /** The calls of a run, in the order in which they are made. */
  function Calls(items: seq<Item>): seq<Call>
    decreases items
  {
    if items == [] then [] else ItemCalls(items[0]) + Calls(items[1..])
  }

  // ---------- runs that have not returned ----------

  /** The last item is an activation that has not returned, in it another one, n in all. */
  ghost predicate OpenAt(items: seq<Item>, n: nat)
    decreases n
  {
    n > 0 ==> items != [] && items[|items| - 1].Activation? && OpenAt(items[|items| - 1].items, n - 1)
  }

  /** The calls made while the n last activations are still open. */
  ghost function CallsSoFar(items: seq<Item>, n: nat): seq<Call>
    requires OpenAt(items, n)
    decreases n
  {
    if n == 0 then Calls(items)
    else
      var i := items[|items| - 1];
      Calls(items[..|items| - 1]) + (i.Prologue() + CallsSoFar(i.items, n - 1))
  }

  /** The returns of the activations that are still open, innermost first. */
  ghost function Closing(items: seq<Item>, n: nat): seq<Call>
    requires OpenAt(items, n)
    decreases n
  {
    if n == 0 then [] else Closing(items[|items| - 1].items, n - 1) + items[|items| - 1].Epilogue()
  }

  lemma {:induction false} CallsAppend(a: seq<Item>, b: seq<Item>)
    ensures Calls(a + b) == Calls(a) + Calls(b)
    decreases a
  {
    if a == [] {
      assert a + b == b;
    } else {
      assert (a + b)[1..] == a[1..] + b;
      CallsAppend(a[1..], b);
      Associate(ItemCalls(a[0]), Calls(a[1..]), Calls(b));
    }
  }

  lemma OneItem(i: Item)
    ensures Calls([i]) == ItemCalls(i)
  {
    assert [i][1..] == [];
    assert ItemCalls(i) + [] == ItemCalls(i);
  }

  /** All that is missing in an open run are the returns of the open activations. */
  lemma {:induction false} OnlyReturnsMissing(items: seq<Item>, n: nat)
    requires OpenAt(items, n)
    ensures Calls(items) == CallsSoFar(items, n) + Closing(items, n)
    decreases n
  {
    if n == 0 {
      assert Calls(items) + [] == Calls(items);
    } else {
      var front, i := items[..|items| - 1], items[|items| - 1];
      assert items == front + [i];
      CallsAppend(front, [i]);
      OneItem(i);
      OnlyReturnsMissing(i.items, n - 1);
      var made, missing := CallsSoFar(i.items, n - 1), Closing(i.items, n - 1);
      Regroup(Calls(front), i.Prologue(), made, missing, i.Epilogue());
    }
  }

  lemma Regroup(a: seq<Call>, b: seq<Call>, c: seq<Call>, d: seq<Call>, e: seq<Call>)
    ensures a + (b + (c + d) + e) == a + (b + c) + (d + e)
  {
  }

  lemma LastOf(a: seq<Item>, b: seq<Item>)
    requires b != []
    ensures (a + b)[|a + b| - 1] == b[|b| - 1] && (a + b)[..|a + b| - 1] == a + b[..|b| - 1]
  {
  }

  /** Putting items in front of an open run. */
  lemma CallsSoFarAppend(a: seq<Item>, b: seq<Item>, n: nat)
    requires OpenAt(b, n)
    ensures OpenAt(a + b, n) && CallsSoFar(a + b, n) == Calls(a) + CallsSoFar(b, n)
  {
    CallsAppend(a, if n == 0 then b else b[..|b| - 1]);
    if n > 0 {
      LastOf(a, b);
      var i := b[|b| - 1];
      var made := i.Prologue() + CallsSoFar(i.items, n - 1);
      assert CallsSoFar(a + b, n) == Calls(a + b[..|b| - 1]) + made;
      Associate(Calls(a), Calls(b[..|b| - 1]), made);
    }
  }

  // ---------- nesting ----------

  /** Only records are emitted, and a tracked function has a name. */
  ghost predicate WellFormedItem(i: Item)
    decreases i
  {
    match i
    case Emit(c) => c.Log0? || c.LogParam?
    case Rename(_) => true
    case Activation(f, k, _, items) => (k.Tracked? ==> f != "") && WellFormed(items)
  }

  ghost predicate WellFormed(items: seq<Item>)
    decreases items
  {
    items != [] ==> WellFormedItem(items[0]) && WellFormed(items[1..])
  }

  /** The item is or contains, at any depth, the activation of a tracked function. */
  ghost predicate ItemHasTracked(i: Item)
    decreases i
  {
    i.Activation? && (i.kind.Tracked? || HasTracked(i.items))
  }

  ghost predicate HasTracked(items: seq<Item>)
    decreases items
  {
    items != [] && (ItemHasTracked(items[0]) || HasTracked(items[1..]))
  }

  /** Some tracked activation contains another one (of any function, itself included). */
  ghost predicate ItemNested(i: Item)
    decreases i
  {
    i.Activation? && (Nested(i.items) || (i.kind.Tracked? && HasTracked(i.items)))
  }

  ghost predicate Nested(items: seq<Item>)
    decreases items
  {
    items != [] && (ItemNested(items[0]) || Nested(items[1..]))
  }

  lemma {:induction false} NestedHasTracked(items: seq<Item>)
    requires Nested(items)
    ensures HasTracked(items)
    decreases items
  {
    if Nested(items[1..]) {
      NestedHasTracked(items[1..]);
    } else {
      ItemNestedHasTracked(items[0]);
    }
  }

  lemma {:induction false} ItemNestedHasTracked(i: Item)
    requires ItemNested(i)
    ensures ItemHasTracked(i)
    decreases i
  {
    if Nested(i.items) {
      NestedHasTracked(i.items);
    }
  }

  /** Between sessions: no trace, or one that has logged nothing yet. */
  ghost predicate Idle(s: State) {
    s.trace.None? || s.trace.value == NewTrace(s.trace.value.name)
  }

  /** Within the session of tracked function `f`. */
  ghost predicate InSession(s: State, f: string) {
    && f != "" && s.trace.Some?
    && s.trace.value.status == LogAndContinue && s.trace.value.toplevel == f
    && s.trace.value.file.Some? && s.trace.value.file.value in s.files
  }

  // ---------- composing runs ----------

  function Then(labelMap: string, r: Result<State, Stop>, calls: seq<Call>): Result<State, Stop> {
    match r
    case Err(e) => Err(e)
    case Ok(s) => Run(labelMap, s, calls)
  }

  function RunItems(labelMap: string, s: State, items: seq<Item>): Result<State, Stop> {
    Run(labelMap, s, Calls(items))
  }

  function RunItem(labelMap: string, s: State, i: Item): Result<State, Stop> {
    if i.Activation? then
      Then(labelMap, Then(labelMap, Run(labelMap, s, i.Prologue()), Calls(i.items)), i.Epilogue())
    else Run(labelMap, s, ItemCalls(i))
  }

  lemma RunParts(labelMap: string, s: State, items: seq<Item>)
    requires items != []
    ensures RunItems(labelMap, s, items) == Then(labelMap, RunItem(labelMap, s, items[0]), Calls(items[1..]))
  {
    var i := items[0];
    RunAppend(labelMap, s, ItemCalls(i), Calls(items[1..]));
    if i.Activation? {
      RunAppend(labelMap, s, i.Prologue() + Calls(i.items), i.Epilogue());
      RunAppend(labelMap, s, i.Prologue(), Calls(i.items));
    }
  }

  lemma RunOne(labelMap: string, s: State, c: Call)
    ensures Run(labelMap, s, [c]) == Step(labelMap, s, c)
  {
    match Step(labelMap, s, c)
    case Err(_) =>
    case Ok(m) => assert [c][1..] == [];
  }

  // ---------- when the assertions fire ----------

  /** An assertion of log_or_not stopped the run. */
  ghost predicate Stopped(r: Result<State, Stop>) {
    r.Err? && r.error != NoFile
  }

  ghost predicate IdleOrStopped(r: Result<State, Stop>) {
    Stopped(r) || (r.Ok? && Idle(r.value))
  }

  /** Entering a tracked function opens a session, or stays in the one of the outer function. */
  lemma EnterTracked(labelMap: string, s: State, i: Item, f: string)
    requires i.EntersTracked() && i.func != ""
    requires (Idle(s) && f == i.func) || InSession(s, f)
    ensures var r := Run(labelMap, s, i.Prologue());
            r.Ok? && InSession(r.value, f)
  {
    var c, d := i.Prologue()[0], i.Prologue()[1];
    assert i.Prologue() == [c] + [d];
    RunAppend(labelMap, s, [c], [d]);
    RunOne(labelMap, s, c);
    RunOne(labelMap, Step(labelMap, s, c).value, d);
  }

  /** The return of a tracked function ends its own session; in any other state it asserts. */
  lemma LeaveTracked(labelMap: string, s: State, i: Item, f: string)
    requires i.EntersTracked() && i.func != ""
    requires Idle(s) || InSession(s, f)
    ensures var r := Run(labelMap, s, i.Epilogue());
            if InSession(s, f) && f == i.func then r == Ok(State(None, s.files)) else Stopped(r)
  {
    RunOne(labelMap, s, i.Epilogue()[0]);
  }

  /** The return of any other function changes nothing in a session and drops an idle trace. */
  lemma LeaveOther(labelMap: string, s: State, i: Item, f: string)
    requires i.Activation? && !i.kind.Tracked?
    requires Idle(s) || InSession(s, f)
    ensures Run(labelMap, s, i.Epilogue()) ==
            Ok(if i.kind.Bare? || InSession(s, f) then s else State(None, s.files))
  {
    if i.kind.Untracked? {
      RunOne(labelMap, s, i.Epilogue()[0]);
    }
  }

  /** A run that starts in a session stays in it when no tracked function is entered;
      otherwise an assertion fires or the session is lost. */
  lemma {:induction false} FromSession(labelMap: string, s: State, items: seq<Item>, f: string)
    requires WellFormed(items) && InSession(s, f)
    ensures var r := RunItems(labelMap, s, items);
            if HasTracked(items) then IdleOrStopped(r) else r.Ok? && InSession(r.value, f)
    decreases items
  {
    if items != [] {
      RunParts(labelMap, s, items);
      ItemFromSession(labelMap, s, items[0], f);
      var r := RunItem(labelMap, s, items[0]);
      if r.Ok? {
        if ItemHasTracked(items[0]) {
          FromIdle(labelMap, r.value, items[1..]);
        } else {
          FromSession(labelMap, r.value, items[1..], f);
        }
      }
    }
  }

  lemma {:induction false} ItemFromSession(labelMap: string, s: State, i: Item, f: string)
    requires WellFormedItem(i) && InSession(s, f)
    ensures var r := RunItem(labelMap, s, i);
            if ItemHasTracked(i) then IdleOrStopped(r) else r.Ok? && InSession(r.value, f)
    decreases i
  {
    match i
    case Emit(c) => RunOne(labelMap, s, c);
    case Rename(n) => RunOne(labelMap, s, SetName(n));
    case Activation(_, _, _, items) =>
      if i.kind.Tracked? {
        EnterTracked(labelMap, s, i, f);
      }
      var entered := Run(labelMap, s, i.Prologue()).value;
      FromSession(labelMap, entered, items, f);
      var r := RunItems(labelMap, entered, items);
      if r.Ok? {
        if i.kind.Tracked? {
          LeaveTracked(labelMap, r.value, i, f);
        } else {
          LeaveOther(labelMap, r.value, i, f);
        }
      }
  }

  /**
   The assertions of log_or_not: a complete run that starts idle stops at one of them if and
   only if some tracked activation is nested inside another; if not, it ends idle.
   */
  lemma {:induction false} FromIdle(labelMap: string, s: State, items: seq<Item>)
    requires WellFormed(items) && Idle(s)
    ensures IdleOrStopped(RunItems(labelMap, s, items))
    ensures Stopped(RunItems(labelMap, s, items)) <==> Nested(items)
    decreases items
  {
    if items != [] {
      RunParts(labelMap, s, items);
      ItemFromIdle(labelMap, s, items[0]);
      var r := RunItem(labelMap, s, items[0]);
      if r.Ok? {
        FromIdle(labelMap, r.value, items[1..]);
      }
    }
  }

  lemma {:induction false} ItemFromIdle(labelMap: string, s: State, i: Item)
    requires WellFormedItem(i) && Idle(s)
    ensures IdleOrStopped(RunItem(labelMap, s, i))
    ensures Stopped(RunItem(labelMap, s, i)) <==> ItemNested(i)
    decreases i
  {
    match i
    case Emit(c) => RunOne(labelMap, s, c);
    case Rename(n) => RunOne(labelMap, s, SetName(n));
    case Activation(f, k, _, items) =>
      if k.Tracked? {
        if Nested(items) {
          NestedHasTracked(items);
        }
        EnterTracked(labelMap, s, i, f);
        var entered := Run(labelMap, s, i.Prologue()).value;
        FromSession(labelMap, entered, items, f);
        var r := RunItems(labelMap, entered, items);
        if r.Ok? {
          LeaveTracked(labelMap, r.value, i, f);
        }
      } else {
        FromIdle(labelMap, s, items);
        var r := RunItems(labelMap, s, items);
        if r.Ok? {
          LeaveOther(labelMap, r.value, i, "");
        }
      }
  }

  // ---------- what a run writes ----------

  /** One session: the file it goes to and the records written to it. */
  datatype Session = Session(file: string, records: seq<Record>)

  function ItemHeaders(i: Item): nat
    decreases i
  {
    match i
    case Emit(c) => HeaderCount(c)
    case Rename(_) => 0
    case Activation(_, _, _, items) => Headers(items)
  }

  function Headers(items: seq<Item>): nat
    decreases items
  {
    if items == [] then 0 else ItemHeaders(items[0]) + Headers(items[1..])
  }

  /** The records that the items emit, headers numbered from `k`. */
  function ItemRecords(i: Item, k: nat): seq<Record>
    requires WellFormedItem(i)
    decreases i
  {
    match i
    case Emit(c) => [RecordOf(c, k)]
    case Rename(_) => []
    case Activation(_, _, _, items) => Records(items, k)
  }

  function Records(items: seq<Item>, k: nat): seq<Record>
    requires WellFormed(items)
    decreases items
  {
    if items == [] then [] else ItemRecords(items[0], k) + Records(items[1..], k + ItemHeaders(items[0]))
  }

  /** The name waiting for the next session once the items have run, given the one before. */
  function ItemPending(i: Item, name: Option<string>): Option<string>
    decreases i
  {
    match i
    case Emit(_) => name
    case Rename(n) => Some(n)
    case Activation(_, k, _, items) => if k.Bare? then Pending(items, name) else None
  }

  function Pending(items: seq<Item>, name: Option<string>): Option<string>
    decreases items
  {
    if items == [] then name else Pending(items[1..], ItemPending(items[0], name))
  }

  /** The sessions of a run: one for each tracked activation, holding its entry record and
      exactly the records emitted between its entry and its return. */
  function ItemSessions(i: Item, name: Option<string>): seq<Session>
    requires WellFormedItem(i)
    decreases i
  {
    match i
    case Emit(_) => []
    case Rename(_) => []
    case Activation(f, k, n, items) =>
      if k.Tracked? then [Session(name.GetOr(DEFAULT_TRACE_NAME), [Entry(f, n)] + Records(items, 0))]
      else Sessions(items, name)
  }

  function Sessions(items: seq<Item>, name: Option<string>): seq<Session>
    requires WellFormed(items)
    decreases items
  {
    if items == [] then []
    else ItemSessions(items[0], name) + Sessions(items[1..], ItemPending(items[0], name))
  }

  function WriteSession(labelMap: string, files: map<string, seq<string>>, s: Session): map<string, seq<string>> {
    files[s.file := Opened(labelMap, files, s.file) + AllPieces(s.records)]
  }

  function WriteSessions(labelMap: string, files: map<string, seq<string>>, ss: seq<Session>): map<string, seq<string>>
    decreases ss
  {
    if ss == [] then files else WriteSessions(labelMap, WriteSession(labelMap, files, ss[0]), ss[1..])
  }

  lemma {:induction false} WriteSessionsAppend(labelMap: string, files: map<string, seq<string>>, a: seq<Session>,
                                               b: seq<Session>)
    ensures WriteSessions(labelMap, files, a + b) == WriteSessions(labelMap, WriteSessions(labelMap, files, a), b)
    decreases a
  {
    if a == [] {
      assert a + b == b;
    } else {
      assert (a + b)[1..] == a[1..] + b;
      WriteSessionsAppend(labelMap, WriteSession(labelMap, files, a[0]), a[1..], b);
    }
  }

  /** What a state in a session becomes when `written` goes to its file and `n` headers are
      counted; the trace may have been renamed. */
  ghost predicate Logged(s: State, t: State, f: string, written: seq<Record>, n: nat) {
    && InSession(s, f) && InSession(t, f)
    && t.trace.value.file == s.trace.value.file
    && t.trace.value.count == s.trace.value.count + n
    && t.files == Extended(s.files, s.trace.value.file.value, AllPieces(written))
  }

  function Extended(files: map<string, seq<string>>, f: string, pieces: seq<string>): map<string, seq<string>>
    requires f in files
  {
    files[f := files[f] + pieces]
  }

  lemma LoggedCompose(s: State, m: State, t: State, f: string, a: seq<Record>, b: seq<Record>, n: nat, k: nat)
    requires Logged(s, m, f, a, n) && Logged(m, t, f, b, k)
    ensures Logged(s, t, f, a + b, n + k)
  {
    AllPiecesAppend(a, b);
    ExtendedTwice(s.files, s.trace.value.file.value, AllPieces(a), AllPieces(b));
  }

  lemma ExtendedTwice(files: map<string, seq<string>>, f: string, a: seq<string>, b: seq<string>)
    requires f in files
    ensures Extended(Extended(files, f, a), f, b) == Extended(files, f, a + b)
  {
    assert files[f] + a + b == files[f] + (a + b);
  }

  lemma LogItem(labelMap: string, s: State, i: Item, f: string)
    requires WellFormedItem(i) && !i.Activation? && InSession(s, f)
    ensures var r := RunItem(labelMap, s, i);
            r.Ok? && Logged(s, r.value, f, ItemRecords(i, s.trace.value.count), ItemHeaders(i))
  {
    match i
    case Emit(c) =>
      RunOne(labelMap, s, c);
      var r := RecordOf(c, s.trace.value.count);
      AllPiecesOne(r);
    case Rename(n) =>
      RunOne(labelMap, s, SetName(n));
      var h := s.trace.value.file.value;
      assert s.files[h] + [] == s.files[h];
  }

  /** In a session every emitted record is written, in order, to the file of the session - also
      when the trace is renamed in between - and headers are numbered consecutively. */
  lemma {:induction false} SessionBody(labelMap: string, s: State, items: seq<Item>, f: string)
    requires WellFormed(items) && InSession(s, f) && !HasTracked(items)
    ensures var r := RunItems(labelMap, s, items);
            r.Ok? && Logged(s, r.value, f, Records(items, s.trace.value.count), Headers(items))
    decreases items
  {
    if items == [] {
      var h := s.trace.value.file.value;
      assert s.files[h] + [] == s.files[h];
    } else {
      RunParts(labelMap, s, items);
      ItemBody(labelMap, s, items[0], f);
      var m := RunItem(labelMap, s, items[0]).value;
      SessionBody(labelMap, m, items[1..], f);
      BodyCompose(s, m, RunItems(labelMap, m, items[1..]).value, f, items);
    }
  }

  lemma {:induction false} BodyCompose(s: State, m: State, t: State, f: string, items: seq<Item>)
    requires items != [] && WellFormed(items) && InSession(s, f)
    requires Logged(s, m, f, ItemRecords(items[0], s.trace.value.count), ItemHeaders(items[0]))
    requires Logged(m, t, f, Records(items[1..], m.trace.value.count), Headers(items[1..]))
    ensures Logged(s, t, f, Records(items, s.trace.value.count), Headers(items))
  {
    LoggedCompose(s, m, t, f, ItemRecords(items[0], s.trace.value.count), Records(items[1..], m.trace.value.count),
                  ItemHeaders(items[0]), Headers(items[1..]));
  }

  lemma {:induction false} ItemBody(labelMap: string, s: State, i: Item, f: string)
    requires WellFormedItem(i) && InSession(s, f) && !ItemHasTracked(i)
    ensures var r := RunItem(labelMap, s, i);
            r.Ok? && Logged(s, r.value, f, ItemRecords(i, s.trace.value.count), ItemHeaders(i))
    decreases i
  {
    if i.Activation? {
      SessionBody(labelMap, s, i.items, f);
      LeaveOther(labelMap, RunItems(labelMap, s, i.items).value, i, f);
    } else {
      LogItem(labelMap, s, i, f);
    }
  }

  /** The state between sessions in which `name` waits for the next one. */
  ghost predicate Waits(s: State, name: Option<string>) {
    if name.Some? then s.trace == Some(NewTrace(name.value)) else s.trace.None?
  }

  lemma EnterFresh(labelMap: string, s: State, i: Item, name: Option<string>)
    requires i.EntersTracked() && i.func != "" && Waits(s, name)
    ensures var file := name.GetOr(DEFAULT_TRACE_NAME);
            Run(labelMap, s, i.Prologue()) ==
            Ok(State(Some(Info(file, Some(file), 0, i.func, LogAndContinue)),
                     s.files[file := Opened(labelMap, s.files, file) + Pieces(Entry(i.func, i.nparams))]))
  {
    var c, d := i.Prologue()[0], i.Prologue()[1];
    assert i.Prologue() == [c] + [d];
    RunAppend(labelMap, s, [c], [d]);
    RunOne(labelMap, s, c);
    RunOne(labelMap, Step(labelMap, s, c).value, d);
  }

  lemma EntryThenBody(files: map<string, seq<string>>, file: string, before: seq<string>, entry: Record,
                      body: seq<Record>)
    ensures Extended(files[file := before + Pieces(entry)], file, AllPieces(body))
         == files[file := before + AllPieces([entry] + body)]
  {
    assert ([entry] + body)[1..] == body;
    assert before + Pieces(entry) + AllPieces(body) == before + (Pieces(entry) + AllPieces(body));
  }

  /** One tracked activation writes one session and leaves no trace behind. */
  lemma OneSession(labelMap: string, s: State, i: Item, name: Option<string>)
    requires i.EntersTracked() && WellFormedItem(i) && !HasTracked(i.items)
    requires Waits(s, name)
    ensures RunItem(labelMap, s, i) ==
            Ok(State(None, WriteSession(labelMap, s.files, ItemSessions(i, name)[0])))
  {
    var file := name.GetOr(DEFAULT_TRACE_NAME);
    EnterFresh(labelMap, s, i, name);
    var entered := Run(labelMap, s, i.Prologue()).value;
    SessionBody(labelMap, entered, i.items, i.func);
    var left := RunItems(labelMap, entered, i.items).value;
    EntryThenBody(s.files, file, Opened(labelMap, s.files, file), Entry(i.func, i.nparams), Records(i.items, 0));
    LeaveTracked(labelMap, left, i, i.func);
    assert RunItem(labelMap, s, i) == Run(labelMap, left, i.Epilogue());
  }

  /**
   The session window: a complete run without nested tracked activations writes exactly its
   sessions, each to one open file that starts with the label map, and nothing else.
   */
  lemma {:induction false} SessionWindow(labelMap: string, s: State, items: seq<Item>, name: Option<string>)
    requires WellFormed(items) && !Nested(items) && Waits(s, name)
    ensures var r := RunItems(labelMap, s, items);
            r.Ok? && Waits(r.value, Pending(items, name))
            && r.value.files == WriteSessions(labelMap, s.files, Sessions(items, name))
    decreases items
  {
    if items != [] {
      RunParts(labelMap, s, items);
      ItemWindow(labelMap, s, items[0], name);
      var m := RunItem(labelMap, s, items[0]).value;
      var name' := ItemPending(items[0], name);
      SessionWindow(labelMap, m, items[1..], name');
      WriteSessionsAppend(labelMap, s.files, ItemSessions(items[0], name), Sessions(items[1..], name'));
    }
  }

  lemma {:induction false} ItemWindow(labelMap: string, s: State, i: Item, name: Option<string>)
    requires WellFormedItem(i) && !ItemNested(i) && Waits(s, name)
    ensures var r := RunItem(labelMap, s, i);
            r.Ok? && Waits(r.value, ItemPending(i, name))
            && r.value.files == WriteSessions(labelMap, s.files, ItemSessions(i, name))
    decreases i
  {
    match i
    case Emit(c) => RunOne(labelMap, s, c);
    case Rename(n) => RunOne(labelMap, s, SetName(n));
    case Activation(_, k, _, items) =>
      if k.Tracked? {
        OneSession(labelMap, s, i, name);
        assert ItemSessions(i, name)[1..] == [];
      } else {
        SessionWindow(labelMap, s, items, name);
        LeaveOther(labelMap, RunItems(labelMap, s, items).value, i, "");
      }
  }

  /** Returns write nothing. */
  lemma {:induction false} ReturnsWriteNothing(labelMap: string, s: State, items: seq<Item>, n: nat)
    requires OpenAt(items, n)
    ensures var r := Run(labelMap, s, Closing(items, n));
            r.Ok? ==> r.value.files == s.files
    decreases n
  {
    if n > 0 {
      var i := items[|items| - 1];
      RunAppend(labelMap, s, Closing(i.items, n - 1), i.Epilogue());
      ReturnsWriteNothing(labelMap, s, i.items, n - 1);
      var m := Run(labelMap, s, Closing(i.items, n - 1));
      if m.Ok? && !i.kind.Bare? {
        RunOne(labelMap, m.value, i.Epilogue()[0]);
      }
    }
  }

  /** A run without nesting that has not returned stops nowhere either, and has written exactly
      its sessions, the one that is still open included. */
  lemma OpenWindow(labelMap: string, s: State, items: seq<Item>, n: nat, name: Option<string>)
    requires WellFormed(items) && !Nested(items) && Waits(s, name) && OpenAt(items, n)
    ensures var r := Run(labelMap, s, CallsSoFar(items, n));
            r.Ok? && r.value.files == WriteSessions(labelMap, s.files, Sessions(items, name))
  {
    SessionWindow(labelMap, s, items, name);
    OnlyReturnsMissing(items, n);
    RunAppend(labelMap, s, CallsSoFar(items, n), Closing(items, n));
    ReturnsWriteNothing(labelMap, Run(labelMap, s, CallsSoFar(items, n)).value, items, n);
  }

  // ---------- header counters ----------

  function HeaderCounts(rs: seq<Record>): seq<int>
    decreases rs
  {
    if rs == [] then [] else (if rs[0].Header? then [rs[0].count] else []) + HeaderCounts(rs[1..])
  }

  lemma {:induction false} HeaderCountsAppend(a: seq<Record>, b: seq<Record>)
    ensures HeaderCounts(a + b) == HeaderCounts(a) + HeaderCounts(b)
    decreases a
  {
    if a == [] {
      assert a + b == b;
    } else {
      assert (a + b)[1..] == a[1..] + b;
      HeaderCountsAppend(a[1..], b);
      Associate(if a[0].Header? then [a[0].count] else [], HeaderCounts(a[1..]), HeaderCounts(b));
    }
  }

  /** The header counters of a session are 0, 1, ..., n-1, with no gap and no repeat. */
  lemma {:induction false} CountersConsecutive(items: seq<Item>, k: nat)
    requires WellFormed(items)
    ensures HeaderCounts(Records(items, k)) == seq(Headers(items), i => k + i)
    decreases items
  {
    if items != [] {
      var n := ItemHeaders(items[0]);
      ItemCountersConsecutive(items[0], k);
      CountersConsecutive(items[1..], k + n);
      HeaderCountsAppend(ItemRecords(items[0], k), Records(items[1..], k + n));
    }
  }

  lemma {:induction false} ItemCountersConsecutive(i: Item, k: nat)
    requires WellFormedItem(i)
    ensures HeaderCounts(ItemRecords(i, k)) == seq(ItemHeaders(i), j => k + j)
    decreases i
  {
    match i
    case Emit(c) => assert [RecordOf(c, k)][1..] == [];
    case Rename(_) =>
    case Activation(_, _, _, items) => CountersConsecutive(items, k);
  }

  // ---------- which file a session goes to ----------

  /** The last name set since the trace was last destroyed, read off the calls made so far:
      go back over everything that is neither a name nor a status update. */
  function LastName(history: seq<Call>, start: Option<string>): Option<string>
    decreases history
  {
    if history == [] then start else
      match history[|history| - 1]
      case SetName(n) => Some(n)
      case Update(_, _, _, _) => None
      case _ => LastName(history[..|history| - 1], start)
  }

  function IsEntry(c: Call): bool {
    c.Update? && c.tracked && c.opcode != RET_OP
  }

  /** For each tracked entry among `calls`, the last name set before it, else the default. */
  function NamesAtEntries(history: seq<Call>, calls: seq<Call>, start: Option<string>): seq<string>
    decreases calls
  {
    if calls == [] then [] else
      (if IsEntry(calls[0]) then [LastName(history, start).GetOr(DEFAULT_TRACE_NAME)] else [])
      + NamesAtEntries(history + [calls[0]], calls[1..], start)
  }

  lemma {:induction false} NamesAppend(history: seq<Call>, a: seq<Call>, b: seq<Call>, start: Option<string>)
    ensures NamesAtEntries(history, a + b, start) ==
            NamesAtEntries(history, a, start) + NamesAtEntries(history + a, b, start)
    decreases a
  {
    if a == [] {
      assert a + b == b && history + a == history;
    } else {
      assert (a + b)[1..] == a[1..] + b;
      assert history + [a[0]] + a[1..] == history + a;
      NamesAppend(history + [a[0]], a[1..], b, start);
    }
  }

  /** From this history on, these calls enter sessions with these files, and leave this name. */
  ghost predicate Named(history: seq<Call>, calls: seq<Call>, start: Option<string>, files: seq<string>,
                        after: Option<string>) {
    && NamesAtEntries(history, calls, start) == files
    && LastName(history + calls, start) == after
  }

  lemma NamedOne(history: seq<Call>, c: Call, start: Option<string>)
    ensures Named(history, [c], start,
                  if IsEntry(c) then [LastName(history, start).GetOr(DEFAULT_TRACE_NAME)] else [],
                  match c {
                    case SetName(n) => Some(n)
                    case Update(_, _, _, _) => None
                    case _ => LastName(history, start)
                  })
  {
    assert [c][1..] == [];
    assert (history + [c])[..|history|] == history;
  }

  lemma NamedNone(history: seq<Call>, start: Option<string>)
    ensures Named(history, [], start, [], LastName(history, start))
  {
    assert history + [] == history;
  }

  lemma NamedCompose(history: seq<Call>, a: seq<Call>, b: seq<Call>, start: Option<string>, fa: seq<string>,
                     fb: seq<string>, mid: Option<string>, after: Option<string>)
    requires Named(history, a, start, fa, mid) && Named(history + a, b, start, fb, after)
    ensures Named(history, a + b, start, fa + fb, after)
  {
    NamesAppend(history, a, b, start);
    assert history + a + b == history + (a + b);
  }

  function Files(ss: seq<Session>): seq<string> {
    seq(|ss|, i requires 0 <= i < |ss| => ss[i].file)
  }

  /** Nothing within a session is an entry. */
  lemma {:induction false} NoEntryWithin(history: seq<Call>, items: seq<Item>, start: Option<string>)
    requires WellFormed(items) && !HasTracked(items)
    ensures NamesAtEntries(history, Calls(items), start) == []
    decreases items
  {
    if items != [] {
      NoEntryWithinItem(history, items[0], start);
      NoEntryWithin(history + ItemCalls(items[0]), items[1..], start);
      NamesAppend(history, ItemCalls(items[0]), Calls(items[1..]), start);
    }
  }

  lemma {:induction false} NoEntryWithinItem(history: seq<Call>, i: Item, start: Option<string>)
    requires WellFormedItem(i) && !ItemHasTracked(i)
    ensures NamesAtEntries(history, ItemCalls(i), start) == []
    decreases i
  {
    match i
    case Emit(c) => NamedOne(history, c, start);
    case Rename(n) => NamedOne(history, SetName(n), start);
    case Activation(_, k, _, items) =>
      NoEntryWithin(history, items, start);
      assert ItemCalls(i) == Calls(items) + i.Epilogue();
      NamesAppend(history, Calls(items), i.Epilogue(), start);
      if k.Untracked? {
        NamedOne(history + Calls(items), i.Epilogue()[0], start);
      }
  }

  lemma NamedPrologue(history: seq<Call>, i: Item, start: Option<string>)
    requires i.EntersTracked()
    ensures Named(history, i.Prologue(), start, [LastName(history, start).GetOr(DEFAULT_TRACE_NAME)], None)
  {
    var name := LastName(history, start).GetOr(DEFAULT_TRACE_NAME);
    var c, d := i.Prologue()[0], i.Prologue()[1];
    NamedOne(history, c, start);
    NamedOne(history + [c], d, start);
    NamedCompose(history, [c], [d], start, [name], [], None, None);
    assert [c] + [d] == i.Prologue() && [name] + [] == [name];
  }

  /** A tracked activation is one entry, whose name is the one set last; it forgets the name. */
  lemma NamedSession(history: seq<Call>, i: Item, start: Option<string>)
    requires i.EntersTracked() && WellFormedItem(i) && !HasTracked(i.items)
    ensures Named(history, ItemCalls(i), start, [LastName(history, start).GetOr(DEFAULT_TRACE_NAME)], None)
  {
    var name := LastName(history, start).GetOr(DEFAULT_TRACE_NAME);
    var inner := Calls(i.items);
    NamedPrologue(history, i, start);
    NoEntryWithin(history + i.Prologue(), i.items, start);
    var mid := LastName(history + i.Prologue() + inner, start);
    NamedCompose(history, i.Prologue(), inner, start, [name], [], None, mid);
    assert [name] + [] == [name];
    NamedReturn(history, i.Prologue() + inner, i, start, [name], mid);
  }

  lemma NamedReturn(history: seq<Call>, calls: seq<Call>, i: Item, start: Option<string>, files: seq<string>,
                    mid: Option<string>)
    requires i.Activation? && !i.kind.Bare?
    requires Named(history, calls, start, files, mid)
    ensures Named(history, calls + i.Epilogue(), start, files, None)
  {
    assert files + [] == files;
    NamedOne(history + calls, i.Epilogue()[0], start);
    NamedCompose(history, calls, i.Epilogue(), start, files, [], mid, None);
  }

  /**
   Session naming: the file of each session of a run without nesting is the last name set since
   the trace was last destroyed, else the default. A name set during a session never redirects
   it, and a session's end as well as any other instrumented return forgets the name.
   */
  lemma {:induction false} SessionNaming(history: seq<Call>, items: seq<Item>, start: Option<string>)
    requires WellFormed(items) && !Nested(items)
    ensures var name := LastName(history, start);
            Named(history, Calls(items), start, Files(Sessions(items, name)), Pending(items, name))
    decreases items
  {
    var name := LastName(history, start);
    if items == [] {
      NamedNone(history, start);
    } else {
      var name' := ItemPending(items[0], name);
      var first, more := ItemSessions(items[0], name), Sessions(items[1..], name');
      ItemNaming(history, items[0], start);
      SessionNaming(history + ItemCalls(items[0]), items[1..], start);
      NamedCompose(history, ItemCalls(items[0]), Calls(items[1..]), start, Files(first), Files(more), name',
                   Pending(items[1..], name'));
      assert Files(first + more) == Files(first) + Files(more);
    }
  }

  lemma {:induction false} ItemNaming(history: seq<Call>, i: Item, start: Option<string>)
    requires WellFormedItem(i) && !ItemNested(i)
    ensures var name := LastName(history, start);
            Named(history, ItemCalls(i), start, Files(ItemSessions(i, name)), ItemPending(i, name))
    decreases i
  {
    var name := LastName(history, start);
    match i
    case Emit(c) => NamedOne(history, c, start);
    case Rename(n) => NamedOne(history, SetName(n), start);
    case Activation(_, k, _, items) =>
      if k.Tracked? {
        NamedSession(history, i, start);
        assert Files(ItemSessions(i, name)) == [name.GetOr(DEFAULT_TRACE_NAME)];
      } else {
        SessionNaming(history, items, start);
        OtherNaming(history, i, start, Files(Sessions(items, name)), Pending(items, name));
      }
  }

  lemma OtherNaming(history: seq<Call>, i: Item, start: Option<string>, files: seq<string>, after: Option<string>)
    requires i.Activation? && !i.kind.Tracked?
    requires Named(history, Calls(i.items), start, files, after)
    ensures Named(history, ItemCalls(i), start, files, if i.kind.Bare? then after else None)
  {
    assert ItemCalls(i) == Calls(i.items) + i.Epilogue();
    if i.kind.Bare? {
      assert ItemCalls(i) == Calls(i.items);
    } else {
      NamedReturn(history, Calls(i.items), i, start, files, after);
    }
  }
}
