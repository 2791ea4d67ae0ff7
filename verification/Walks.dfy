/**
 Any run of one thread, nested or not, returned or not: where the logger stands after it, whether
 and at which of its assertions it has stopped (profile-func/trace_logger.cpp:119-141), and what it
 has written by then, record by record.
 */
module Walks {
  import opened Wrappers
  import opened TraceText
  import opened Logger
  import opened Runs

  /** Between sessions, with a name waiting for the next one; in the session of `func`, writing to
      `file` and numbering the next header `count`; or stopped at an assertion. */
  datatype Where =
    | AtRest(waiting: Option<string>)
    | In(func: string, name: string, file: string, count: nat)
    | Dead(stop: Stop)

  /** Where a run has come to, and the records it has written, each with its file. */
  datatype Walk = Walk(where: Where, writes: seq<(string, Record)>)

  /** Entering a tracked function opens a session; in a session it goes on in the file of the name
      that the trace has by now. */
  function Enter(k: Walk, i: Item): Walk
    requires i.Activation?
  {
    if !i.kind.Tracked? then k
    else
      match k.where
      case Dead(_) => k
      case AtRest(name) =>
        var file := name.GetOr(DEFAULT_TRACE_NAME);
        Walk(In(i.func, file, file, 0), k.writes + [(file, Entry(i.func, i.nparams))])
      case In(f, name, _, count) =>
        Walk(In(f, name, name, count), k.writes + [(name, Entry(i.func, i.nparams))])
  }

  /** The return of a tracked function ends the session that it opened and is an error anywhere
      else; that of another function forgets a name that waits. */
  function Exit(k: Walk, i: Item): Walk
    requires i.Activation?
  {
    if i.kind.Bare? then k
    else
      match k.where
      case Dead(_) => k
      case AtRest(_) => k.(where := if i.kind.Tracked? then Dead(ReturnBeforeCall) else AtRest(None))
      case In(f, _, _, _) =>
        if !i.kind.Tracked? then k
        else k.(where := if f == i.func then AtRest(None) else Dead(NestedToplevel))
  }

  /** A record is written in a session only. */
  function Say(k: Walk, c: Call): Walk
    requires c.Log0? || c.LogParam?
  {
    if !k.where.In? then k
    else Walk(k.where.(count := k.where.count + HeaderCount(c)),
              k.writes + [(k.where.file, RecordOf(c, k.where.count))])
  }

  function Named(k: Walk, name: string): Walk {
    match k.where
    case Dead(_) => k
    case AtRest(_) => k.(where := AtRest(Some(name)))
    case In(_, _, _, _) => k.(where := k.where.(name := name))
  }

  function AfterItem(k: Walk, i: Item): Walk
    requires WellFormedItem(i)
    decreases i
  {
    match i
    case Emit(c) => Say(k, c)
    case Rename(n) => Named(k, n)
    case Activation(_, _, _, items) => Exit(AfterAll(Enter(k, i), items), i)
  }

  function AfterAll(k: Walk, items: seq<Item>): Walk
    requires WellFormed(items)
    decreases items
  {
    if items == [] then k else AfterAll(AfterItem(k, items[0]), items[1..])
  }

  lemma {:induction false} WellFormedAt(items: seq<Item>)
    requires WellFormed(items) && items != []
    ensures WellFormed(items[..|items| - 1]) && WellFormedItem(items[|items| - 1])
    decreases items
  {
    if |items| > 1 {
      WellFormedAt(items[1..]);
      assert items[..|items| - 1][1..] == items[1..][..|items[1..]| - 1];
    }
  }

  /** The same while the n last activations have not returned. */
  ghost function AfterOpen(k: Walk, items: seq<Item>, n: nat): Walk
    requires WellFormed(items) && OpenAt(items, n)
    decreases n
  {
    if n == 0 then AfterAll(k, items)
    else
      var i := items[|items| - 1];
      WellFormedAt(items);
      AfterOpen(Enter(AfterAll(k, items[..|items| - 1]), i), i.items, n - 1)
  }

  // ---------- the logger goes there ----------

  /** The logger after some calls: still going, or stopped by one of them. */
  datatype Ending = Going(state: State) | Halted(state: State, stop: Stop)

  function RunOn(labelMap: string, e: Ending, calls: seq<Call>): Ending
    decreases calls
  {
    if calls == [] || e.Halted? then e
    else
      match Step(labelMap, e.state, calls[0])
      case Ok(t) => RunOn(labelMap, Going(t), calls[1..])
      case Err(stop) => Halted(e.state, stop)
  }

  lemma {:induction false} RunOnAppend(labelMap: string, e: Ending, a: seq<Call>, b: seq<Call>)
    ensures RunOn(labelMap, e, a + b) == RunOn(labelMap, RunOn(labelMap, e, a), b)
    decreases a
  {
    if a == [] {
      assert a + b == b;
    } else if e.Going? {
      assert (a + b)[1..] == a[1..] + b;
      var r := Step(labelMap, e.state, a[0]);
      if r.Ok? {
        RunOnAppend(labelMap, Going(r.value), a[1..], b);
      }
    }
  }

  lemma RunOnOne(labelMap: string, s: State, c: Call)
    ensures RunOn(labelMap, Going(s), [c]) ==
            match Step(labelMap, s, c) { case Ok(t) => Going(t) case Err(stop) => Halted(s, stop) }
  {
    assert [c][1..] == [];
  }

  lemma {:induction false} RunOnRun(labelMap: string, s: State, calls: seq<Call>)
    ensures match Run(labelMap, s, calls)
            case Ok(t) => RunOn(labelMap, Going(s), calls) == Going(t)
            case Err(stop) =>
              RunOn(labelMap, Going(s), calls).Halted? && RunOn(labelMap, Going(s), calls).stop == stop
    decreases calls
  {
    if calls != [] {
      var r := Step(labelMap, s, calls[0]);
      if r.Ok? {
        RunOnRun(labelMap, r.value, calls[1..]);
      }
    }
  }

  /** What some records, each with its file, make of the files: a new file starts with the label map. */
  function WriteAll(labelMap: string, files: map<string, seq<string>>, writes: seq<(string, Record)>)
    : map<string, seq<string>>
    decreases writes
  {
    if writes == [] then files
    else
      var (file, record) := writes[|writes| - 1];
      var before := WriteAll(labelMap, files, writes[..|writes| - 1]);
      before[file := Opened(labelMap, before, file) + Pieces(record)]
  }

  lemma WriteOne(labelMap: string, files: map<string, seq<string>>, writes: seq<(string, Record)>, file: string,
                 record: Record)
    ensures var before := WriteAll(labelMap, files, writes);
            WriteAll(labelMap, files, writes + [(file, record)])
            == before[file := Opened(labelMap, before, file) + Pieces(record)]
  {
    var all := writes + [(file, record)];
    assert all[..|all| - 1] == writes;
  }

  ghost predicate Stands(s: State, w: Where) {
    match w
    case AtRest(name) => Waits(s, name)
    case In(f, name, file, count) =>
      f != "" && s.trace == Some(Info(name, Some(file), count, f, LogAndContinue)) && file in s.files
    case Dead(_) => false
  }

  /** The logger is where the walk is, and the files hold what the walk has written. */
  ghost predicate Follows(labelMap: string, files: map<string, seq<string>>, e: Ending, k: Walk) {
    && e.state.files == WriteAll(labelMap, files, k.writes)
    && match k.where
       case Dead(stop) => e.Halted? && e.stop == stop && stop != NoFile
       case _ => e.Going? && Stands(e.state, k.where)
  }

  lemma SayStep(labelMap: string, s: State, w: Where, c: Call)
    requires Stands(s, w) && (c.Log0? || c.LogParam?)
    ensures var r := Step(labelMap, s, c);
            if w.In? then
              r == Ok(State(Some(s.trace.value.(count := w.count + HeaderCount(c))),
                            s.files[w.file := s.files[w.file] + Pieces(RecordOf(c, w.count))]))
            else r == Ok(s)
  {
  }

  lemma FollowSay(labelMap: string, files: map<string, seq<string>>, e: Ending, k: Walk, c: Call)
    requires Follows(labelMap, files, e, k) && (c.Log0? || c.LogParam?)
    ensures Follows(labelMap, files, RunOn(labelMap, e, [c]), Say(k, c))
  {
    if e.Going? {
      RunOnOne(labelMap, e.state, c);
      SayStep(labelMap, e.state, k.where, c);
      if k.where.In? {
        var record := RecordOf(c, k.where.count);
        WriteOne(labelMap, files, k.writes, k.where.file, record);
        assert Opened(labelMap, e.state.files, k.where.file) == e.state.files[k.where.file];
      }
    }
  }

  lemma FollowNamed(labelMap: string, files: map<string, seq<string>>, e: Ending, k: Walk, n: string)
    requires Follows(labelMap, files, e, k)
    ensures Follows(labelMap, files, RunOn(labelMap, e, [SetName(n)]), Named(k, n))
  {
    if e.Going? {
      RunOnOne(labelMap, e.state, SetName(n));
    }
  }

  lemma EnterStep(labelMap: string, s: State, k: Walk, i: Item)
    requires Stands(s, k.where) && i.EntersTracked() && i.func != ""
    ensures var k' := Enter(k, i);
            var file := k'.where.file;
            k'.writes == k.writes + [(file, Entry(i.func, i.nparams))]
            && RunOn(labelMap, Going(s), i.Prologue())
               == Going(State(Some(Info(k'.where.name, Some(file), k'.where.count, k'.where.func, LogAndContinue)),
                              s.files[file := Opened(labelMap, s.files, file) + Pieces(Entry(i.func, i.nparams))]))
  {
    var c, d := i.Prologue()[0], i.Prologue()[1];
    assert i.Prologue() == [c] + [d];
    RunOnAppend(labelMap, Going(s), [c], [d]);
    RunOnOne(labelMap, s, c);
    RunOnOne(labelMap, Step(labelMap, s, c).value, d);
  }

  lemma FollowEnter(labelMap: string, files: map<string, seq<string>>, e: Ending, k: Walk, i: Item)
    requires Follows(labelMap, files, e, k) && i.Activation? && (i.kind.Tracked? ==> i.func != "")
    ensures Follows(labelMap, files, RunOn(labelMap, e, i.Prologue()), Enter(k, i))
  {
    if e.Going? && i.kind.Tracked? {
      EnterStep(labelMap, e.state, k, i);
      WriteOne(labelMap, files, k.writes, Enter(k, i).where.file, Entry(i.func, i.nparams));
    }
  }

  lemma ExitStep(labelMap: string, s: State, k: Walk, i: Item)
    requires Stands(s, k.where) && i.Activation? && !i.kind.Bare?
    ensures RunOn(labelMap, Going(s), i.Epilogue()) ==
            match Exit(k, i).where
            case Dead(stop) => Halted(s, stop)
            case AtRest(_) => Going(State(None, s.files))
            case In(_, _, _, _) => Going(s)
    ensures Exit(k, i).where.AtRest? ==> Exit(k, i).where.waiting.None?
    ensures Exit(k, i).where.In? ==> Exit(k, i) == k
  {
    RunOnOne(labelMap, s, i.Epilogue()[0]);
  }

  lemma FollowExit(labelMap: string, files: map<string, seq<string>>, e: Ending, k: Walk, i: Item)
    requires Follows(labelMap, files, e, k) && i.Activation?
    ensures Follows(labelMap, files, RunOn(labelMap, e, i.Epilogue()), Exit(k, i))
  {
    if e.Going? && !i.kind.Bare? {
      ExitStep(labelMap, e.state, k, i);
    }
  }

  lemma {:induction false} FollowItem(labelMap: string, files: map<string, seq<string>>, e: Ending, k: Walk, i: Item)
    requires WellFormedItem(i) && Follows(labelMap, files, e, k)
    ensures Follows(labelMap, files, RunOn(labelMap, e, ItemCalls(i)), AfterItem(k, i))
    decreases i
  {
    match i
    case Emit(c) => FollowSay(labelMap, files, e, k, c);
    case Rename(n) => FollowNamed(labelMap, files, e, k, n);
    case Activation(_, _, _, items) =>
      var entered := RunOn(labelMap, e, i.Prologue());
      FollowEnter(labelMap, files, e, k, i);
      FollowAll(labelMap, files, entered, Enter(k, i), items);
      FollowExit(labelMap, files, RunOn(labelMap, entered, Calls(items)), AfterAll(Enter(k, i), items), i);
      RunOnAppend(labelMap, e, i.Prologue() + Calls(items), i.Epilogue());
      RunOnAppend(labelMap, e, i.Prologue(), Calls(items));
  }

  lemma {:induction false} FollowAll(labelMap: string, files: map<string, seq<string>>, e: Ending, k: Walk,
                                     items: seq<Item>)
    requires WellFormed(items) && Follows(labelMap, files, e, k)
    ensures Follows(labelMap, files, RunOn(labelMap, e, Calls(items)), AfterAll(k, items))
    decreases items
  {
    if items != [] {
      FollowItem(labelMap, files, e, k, items[0]);
      RunOnAppend(labelMap, e, ItemCalls(items[0]), Calls(items[1..]));
      FollowAll(labelMap, files, RunOn(labelMap, e, ItemCalls(items[0])), AfterItem(k, items[0]), items[1..]);
    }
  }

  /**
   For every run, whether tracked activations nest in it or not and whether it has returned or not:
   the logger stands exactly where the walk says, has stopped exactly if the walk says so, at that
   assertion, and its files hold exactly what the walk has written.
   */
  lemma {:induction false} FollowOpen(labelMap: string, files: map<string, seq<string>>, e: Ending, k: Walk,
                                      items: seq<Item>, n: nat)
    requires WellFormed(items) && OpenAt(items, n) && Follows(labelMap, files, e, k)
    ensures Follows(labelMap, files, RunOn(labelMap, e, CallsSoFar(items, n)), AfterOpen(k, items, n))
    decreases n
  {
    if n == 0 {
      FollowAll(labelMap, files, e, k, items);
    } else {
      var front, i := items[..|items| - 1], items[|items| - 1];
      WellFormedAt(items);
      FollowAll(labelMap, files, e, k, front);
      var reached, at := RunOn(labelMap, e, Calls(front)), AfterAll(k, front);
      FollowEnter(labelMap, files, reached, at, i);
      FollowOpen(labelMap, files, RunOn(labelMap, reached, i.Prologue()), Enter(at, i), i.items, n - 1);
      RunOnAppend(labelMap, e, Calls(front), i.Prologue() + CallsSoFar(i.items, n - 1));
      RunOnAppend(labelMap, reached, i.Prologue(), CallsSoFar(i.items, n - 1));
    }
  }

  /** A complete run that starts between sessions stops if and only if tracked activations nest. */
  lemma DeadIffNested(items: seq<Item>, name: Option<string>)
    requires WellFormed(items)
    ensures AfterAll(Walk(AtRest(name), []), items).where.Dead? <==> Nested(items)
  {
    var s := State(if name.Some? then Some(NewTrace(name.value)) else None, map[]);
    FollowAll("", map[], Going(s), Walk(AtRest(name), []), items);
    RunOnRun("", s, Calls(items));
    FromIdle("", s, items);
  }
}
