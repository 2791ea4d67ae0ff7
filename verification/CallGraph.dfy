/**
 A condition on the program itself under which tracked activations never nest: in its call graph
 no tracked function leads to a tracked function, itself included.
 */
module CallGraph {
  import opened Tokens
  import opened Runs
  import opened Walks
  import opened Ir
  import opened Annotations
  import opened Semantics
  import opened Correctness
  import opened EndToEnd
  import opened Processes

  /** `indirect` are the functions that calls through pointers can come to. */
  predicate Calls(i: Inst, callee: string, indirect: set<string>) {
    (i.kind.DirectCall? && callee == i.kind.callee) || (i.kind.IndirectCall? && callee in indirect)
  }

  ghost predicate HasInst(f: Func, i: Inst) {
    exists b <- f.blocks :: i in b.insts
  }

  ghost predicate MayCall(f: Func, callee: string, indirect: set<string>) {
    exists i: Inst :: HasInst(f, i) && Calls(i, callee, indirect)
  }

  ghost predicate IsTracked(s: Source, name: string) {
    name in s && KindOf(s[name]).Tracked?
  }

  /** Functions of the program, each of which may call the next one. */
  ghost predicate CallPath(s: Source, indirect: set<string>, p: seq<string>) {
    && p != [] && (forall n <- p :: n in s)
    && forall i :: 0 <= i < |p| - 1 ==> MayCall(s[p[i]], p[i + 1], indirect)
  }

  /** No call path leads from a tracked function to a tracked function. */
  ghost predicate NoneReached(s: Source, indirect: set<string>) {
    forall p: seq<string> :: CallPath(s, indirect, p) && |p| > 1 && IsTracked(s, p[0]) ==> !IsTracked(s, p[|p| - 1])
  }

  /** No tracked function is called from here, at any depth, and the function itself is none. */
  ghost predicate Quiet(s: Source, indirect: set<string>, name: string) {
    forall p: seq<string> :: CallPath(s, indirect, p) && p[0] == name ==> !IsTracked(s, p[|p| - 1])
  }

  ghost predicate QuietBelow(s: Source, indirect: set<string>, name: string)
    requires name in s
  {
    forall c: string :: c in s && MayCall(s[name], c, indirect) ==> Quiet(s, indirect, c)
  }

  ghost predicate Bounded<W(!new)>(m: Machine<W>, indirect: set<string>) {
    forall vals: seq<Value>, w: W :: m.callee(vals, w) in indirect
  }

  lemma PathInFront(s: Source, indirect: set<string>, name: string, p: seq<string>)
    requires name in s && CallPath(s, indirect, p) && MayCall(s[name], p[0], indirect)
    ensures CallPath(s, indirect, [name] + p)
  {
    var q := [name] + p;
    forall i | 0 <= i < |q| - 1
      ensures MayCall(s[q[i]], q[i + 1], indirect)
    {
      if i > 0 {
        assert q[i] == p[i - 1] && q[i + 1] == p[i];
      }
    }
  }

  /** What a quiet or a tracked function calls is quiet. */
  lemma CalleesQuiet(s: Source, indirect: set<string>, name: string)
    requires NoneReached(s, indirect) && name in s
    requires Quiet(s, indirect, name) || IsTracked(s, name)
    ensures QuietBelow(s, indirect, name)
  {
    forall c: string, p: seq<string> |
      c in s && MayCall(s[name], c, indirect) && CallPath(s, indirect, p) && p[0] == c
      ensures !IsTracked(s, p[|p| - 1])
    {
      PathInFront(s, indirect, name, p);
      assert ([name] + p)[0] == name && ([name] + p)[|p|] == p[|p| - 1];
    }
  }

  lemma QuietIsUntracked(s: Source, indirect: set<string>, name: string)
    requires Quiet(s, indirect, name) && name in s
    ensures !IsTracked(s, name)
  {
    assert CallPath(s, indirect, [name]);
  }

  // ---------- items ----------

  lemma {:induction false} TrackedAppend(a: seq<Item>, b: seq<Item>)
    ensures HasTracked(a + b) <==> HasTracked(a) || HasTracked(b)
    ensures Nested(a + b) <==> Nested(a) || Nested(b)
    decreases a
  {
    if a == [] {
      assert a + b == b;
    } else {
      assert (a + b)[1..] == a[1..] + b;
      TrackedAppend(a[1..], b);
    }
  }

  /** Nothing nests, and below quiet functions nothing is tracked. */
  ghost predicate Calm<W>(t: Trace<W>, quiet: bool) {
    !Nested(t.items) && (quiet ==> !HasTracked(t.items))
  }

  lemma {:induction false} EmitsCalm<W>(m: Machine<W>, fr: Frame, ls: seq<Line>)
    ensures !HasTracked(Emits(m, fr, ls)) && !Nested(Emits(m, fr, ls))
    decreases ls
  {
    if ls != [] {
      assert Emits(m, fr, ls)[1..] == Emits(m, fr, ls[1..]);
      EmitsCalm(m, fr, ls[1..]);
    }
  }

  lemma LinesThenCalm<W>(m: Machine<W>, fr: Frame, ls: seq<Line>, t: Trace<W>, quiet: bool)
    requires Calm(t, quiet)
    ensures Calm(PrefixedT(Emits(m, fr, ls), t), quiet)
  {
    EmitsCalm(m, fr, ls);
    TrackedAppend(Emits(m, fr, ls), t.items);
  }

  // ---------- traces ----------

  ghost predicate AllOf(f: Func, anns: seq<Annotated>) {
    forall a <- anns :: HasInst(f, a.inst)
  }

  lemma BlockOfFunction(f: Func, k: nat)
    requires k < |f.blocks|
    ensures AllOf(f, AnnotateFunction(f)[k])
  {
    AnnotateFunctionInsts(f, k);
    var anns := AnnotateFunction(f)[k];
    forall i | 0 <= i < |anns|
      ensures HasInst(f, anns[i].inst)
    {
      assert anns[i].inst == InstsOf(anns)[i] && f.blocks[k] in f.blocks;
    }
  }

  /** A program, a machine and what its pointers can come to. */
  ghost predicate Tame<W(!new)>(y: Site<W>, indirect: set<string>) {
    y.name in y.s && NoneReached(y.s, indirect) && Bounded(y.m, indirect)
  }

  lemma {:induction false} BlockCalm<W(!new)>(y: Site<W>, indirect: set<string>, fr: Frame, anns: seq<Annotated>, w: W)
    requires Tame(y, indirect) && AllOf(y.s[y.name], anns)
    ensures Calm(TraceBlock(y.m, y.s, y.fuel, y.s[y.name], y.at, fr, anns, w), QuietBelow(y.s, indirect, y.name))
    decreases y.fuel, 2 + |anns|, 0
  {
    if anns != [] {
      var f, a := y.s[y.name], anns[0];
      assert HasInst(f, a.inst);
      InstCalm(y, indirect, fr, a.inst, a.after, anns[1..], w);
      LinesThenCalm(y.m, fr, a.before, TraceInst(y.m, y.s, y.fuel, f, y.at, fr, a.inst, a.after, anns[1..], w),
                    QuietBelow(y.s, indirect, y.name));
    }
  }

  lemma {:induction false} InstCalm<W(!new)>(y: Site<W>, indirect: set<string>, fr: Frame, i: Inst, after: seq<Line>,
                                             rest: seq<Annotated>, w: W)
    requires Tame(y, indirect) && HasInst(y.s[y.name], i) && AllOf(y.s[y.name], rest)
    ensures Calm(TraceInst(y.m, y.s, y.fuel, y.s[y.name], y.at, fr, i, after, rest, w),
                 QuietBelow(y.s, indirect, y.name))
    decreases y.fuel, 2 + |rest|, 3
  {
    var vals := EvalAll(y.m, fr, i.args);
    if i.kind.Branch? {
      BranchCalm(y, indirect, fr, i.kind.targets, y.m.branch(i, vals, w), w);
    } else if IsCall(i) {
      CalledCalm(y, indirect, fr, i, CalleeName(y.m, i, vals, w), vals, after, rest, w);
    } else if !i.kind.Ret? && !i.kind.Invoke? {
      var (v, w') := if i.kind.Phi? then (UNDEF, w) else y.m.compute(i, vals, w);
      AfterCalm(y, indirect, if i.kind.Phi? then fr else Define(fr, i, v), after, rest, w');
    }
  }

  lemma {:induction false} AfterCalm<W(!new)>(y: Site<W>, indirect: set<string>, fr: Frame, after: seq<Line>,
                                              rest: seq<Annotated>, w: W)
    requires Tame(y, indirect) && AllOf(y.s[y.name], rest)
    ensures Calm(TraceAfter(y.m, y.s, y.fuel, y.s[y.name], y.at, fr, after, rest, w),
                 QuietBelow(y.s, indirect, y.name))
    decreases y.fuel, 2 + |rest|, 1
  {
    BlockCalm(y, indirect, fr, rest, w);
    LinesThenCalm(y.m, fr, after, TraceBlock(y.m, y.s, y.fuel, y.s[y.name], y.at, fr, rest, w),
                  QuietBelow(y.s, indirect, y.name));
  }

  lemma {:induction false} CalledCalm<W(!new)>(y: Site<W>, indirect: set<string>, fr: Frame, i: Inst, callee: string,
                                               vals: seq<Value>, after: seq<Line>, rest: seq<Annotated>, w: W)
    requires Tame(y, indirect) && HasInst(y.s[y.name], i) && Calls(i, callee, indirect) && AllOf(y.s[y.name], rest)
    ensures Calm(TraceCalled(y.m, y.s, y.fuel, y.s[y.name], y.at, fr, i, callee, vals, after, rest, w),
                 QuietBelow(y.s, indirect, y.name))
    decreases y.fuel, 2 + |rest|, 2
  {
    CallCalm(y.m, y.s, indirect, y.fuel, callee, vals, w);
    assert MayCall(y.s[y.name], callee, indirect);
    var r := TraceCall(y.m, y.s, y.fuel, callee, vals, w);
    if r.status.Returned? {
      var fr' := Define(fr, i, r.status.value);
      AfterCalm(y, indirect, fr', after, rest, r.world);
      TrackedAppend(r.items, TraceAfter(y.m, y.s, y.fuel, y.s[y.name], y.at, fr', after, rest, r.world).items);
    }
  }

  lemma {:induction false} BranchCalm<W(!new)>(y: Site<W>, indirect: set<string>, fr: Frame, targets: seq<nat>, t: nat,
                                               w: W)
    requires Tame(y, indirect)
    ensures Calm(TraceBranch(y.m, y.s, y.fuel, y.s[y.name], y.at, fr, targets, t, w),
                 QuietBelow(y.s, indirect, y.name))
    decreases y.fuel, 0, 1
  {
    if Taken(y, targets, t) {
      TraceTaken(y, fr, targets, t, w);
      JumpCalm(Jumped(y, targets[t]), indirect, y.at, fr, w);
    }
  }

  lemma {:induction false} JumpCalm<W(!new)>(y: Site<W>, indirect: set<string>, from: nat, fr: Frame, w: W)
    requires Tame(y, indirect) && y.at < |y.s[y.name].blocks|
    ensures Calm(AfterJumpT(y, from, fr, w), QuietBelow(y.s, indirect, y.name))
    decreases y.fuel, 2 + |AnnotateFunction(y.s[y.name])[y.at]|, 1
  {
    var next := AnnotateFunction(y.s[y.name])[y.at];
    BlockOfFunction(y.s[y.name], y.at);
    BlockCalm(y, indirect, fr.(regs := PhiRegisters(y.m, fr, PhisOf(next), from)), next, w);
  }

  lemma {:induction false} CallCalm<W(!new)>(m: Machine<W>, s: Source, indirect: set<string>, fuel: nat, callee: string,
                                             args: seq<Value>, w: W)
    requires NoneReached(s, indirect) && Bounded(m, indirect)
    ensures Calm(TraceCall(m, s, fuel, callee, args, w), callee in s ==> Quiet(s, indirect, callee))
    decreases fuel, 1, 0
  {
    if callee == SET_TRACE_NAME {
      assert [Rename(m.sessionName(args, w))][1..] == [];
    } else if callee in s {
      FunctionCalm(m, s, indirect, fuel, callee, args, w);
    }
  }

  /** In such a program no call nests tracked activations. */
  lemma {:induction false} FunctionCalm<W(!new)>(m: Machine<W>, s: Source, indirect: set<string>, fuel: nat,
                                                 name: string, args: seq<Value>, w: W)
    requires NoneReached(s, indirect) && Bounded(m, indirect) && name in s
    ensures Calm(TraceFunction(m, s, fuel, name, args, w), Quiet(s, indirect, name))
    decreases fuel, 0, 0
  {
    var f := s[name];
    if fuel > 0 && f.blocks != [] {
      var fr, quiet := Frame(map[], args), QuietBelow(s, indirect, name);
      BlockOfFunction(f, 0);
      BlockCalm(Site(m, s, fuel - 1, name, 0), indirect, fr, AnnotateFunction(f)[0], w);
      var t := TraceBlock(m, s, fuel - 1, f, 0, fr, AnnotateFunction(f)[0], w);
      LinesThenCalm(m, fr, EntryLines(f), t, quiet);
      if Quiet(s, indirect, name) {
        QuietIsUntracked(s, indirect, name);
      }
      if Quiet(s, indirect, name) || IsTracked(s, name) {
        CalleesQuiet(s, indirect, name);
      }
      ActivatedCalm(f, PrefixedT(Emits(m, fr, EntryLines(f)), t), quiet);
    }
  }

  lemma ActivatedCalm<W>(f: Func, body: Trace<W>, quiet: bool)
    requires Calm(body, quiet) && (KindOf(f).Tracked? ==> quiet)
    ensures Calm(Activated(f, body), quiet && !KindOf(f).Tracked?)
  {
    var i := Activation(f.name, KindOf(f), |f.params|, body.items);
    assert [i][1..] == [];
  }

  /**
   If no tracked function leads to a tracked function in the call graph, instrumenting the program
   does not change how it ends: the logger never stops it, and its files hold exactly the sessions
   of the intended trace.
   */
  lemma NeverAborted<W(!new)>(m: Machine<W>, s: Source, indirect: set<string>, j: Job<W>, labelMap: string)
    requires GoodSource(s) && j.name in s && NoneReached(s, indirect) && Bounded(m, indirect)
    ensures WellFormed(Intended(m, s, j)) && !Nested(Intended(m, s, j))
    ensures var o, p := Original(m, s, j), Instrumentee(m, s, j, labelMap);
            && p.fate == Ran(o.status, o.world) && Own(p.events) == o.events
            && p.log.files == WriteSessions(labelMap, map[], IntendedSessions(m, s, j))
  {
    FunctionCalm(m, s, indirect, j.fuel, j.name, j.args, j.world);
    LogOfProgram(m, s, j, labelMap);
    SameMeaning(m, s, j, labelMap);
    RunOnRun(labelMap, StartState(j.start), CallsIn(Instrumentation(m, s, j).events));
  }
}
