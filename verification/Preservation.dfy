/**
 What the pass preserves, as long as the logger lets the program run: the original and the
 instrumented program go through the same registers and worlds, instruction by instruction, and end
 the same way.
 */
module Preservation {
  import opened Sequences
  import opened StaticIds
  import opened Tokens
  import opened Logger
  import opened Runs
  import opened Ir
  import opened Annotations
  import opened Pass
  import opened Semantics
  import opened Correctness

  /** A block without any inserted code. */
  function Untouched(insts: seq<Inst>): seq<Node> {
    seq(|insts|, k requires 0 <= k < |insts| => Original(insts[k]))
  }

  function UntouchedBody(f: Func): Body {
    Body(f, seq(|f.blocks|, k requires 0 <= k < |f.blocks| => Untouched(f.blocks[k].insts)))
  }

  /** The program before the pass. */
  function UntouchedProgram(s: Source): Program {
    map n | n in s :: UntouchedBody(s[n])
  }

  // ---------- phis ----------

  function StartingPhis(insts: seq<Inst>): seq<Inst>
    decreases insts
  {
    if insts == [] || !insts[0].kind.Phi? then [] else [insts[0]] + StartingPhis(insts[1..])
  }

  lemma {:induction false} UntouchedPhis(insts: seq<Inst>)
    ensures LeadingPhis(Untouched(insts)) == StartingPhis(insts)
    decreases insts
  {
    if insts != [] {
      assert Untouched(insts)[1..] == Untouched(insts[1..]);
      UntouchedPhis(insts[1..]);
    }
  }

  /** Phis without lines in front of them all count as leading ones. */
  lemma {:induction false} AnnotatedPhis(phis: seq<Annotated>, rest: seq<Annotated>)
    requires forall a <- phis :: a.inst.kind.Phi? && a.before == []
    ensures PhisOf(phis + rest) == InstsOf(phis) + PhisOf(rest)
    decreases phis
  {
    if phis == [] {
      assert phis + rest == rest && InstsOf(phis) + PhisOf(rest) == PhisOf(rest);
    } else {
      assert phis[0] in phis && (phis + rest)[1..] == phis[1..] + rest;
      AnnotatedPhis(phis[1..], rest);
      InstsOfFirst(phis);
      Associate([phis[0].inst], InstsOf(phis[1..]), PhisOf(rest));
    }
  }

  lemma {:induction false} AllBarePhis(insts: seq<Inst>)
    ensures PhisOf(Annotations.Bare(insts)) == StartingPhis(insts)
    decreases insts
  {
    if insts != [] {
      assert Annotations.Bare(insts)[1..] == Annotations.Bare(insts[1..]);
      AllBarePhis(insts[1..]);
    }
  }

  lemma {:induction false} CountedPhis(insts: seq<Inst>)
    ensures StartingPhis(insts) == insts[..PhiCount(insts)]
    decreases insts
  {
    if insts != [] && insts[0].kind.Phi? {
      CountedPhis(insts[1..]);
      assert insts[..PhiCount(insts)] == [insts[0]] + insts[1..][..PhiCount(insts[1..])];
    }
  }

  lemma BlockPhis(func: string, varNames: map<int, string>, b: Block)
    ensures PhisOf(AnnotateBlock(func, varNames, b).0) == StartingPhis(b.insts)
  {
    var bbid, n, env := BlockId(b.ref), PhiCount(b.insts), Env(varNames, 0);
    var phis := b.insts[..n];
    var anns := AnnotateAll(func, bbid, AfterPhis(bbid, env, phis), b.insts[n..]).0;
    var rest := WithLines(AllPhiLines(func, bbid, env, phis), anns);
    assert n < |b.insts| ==> !b.insts[n..][0].kind.Phi?;
    assert PhisOf(rest) == [];
    AnnotatedPhis(PhiAnnotations(bbid, env, phis), rest);
    assert InstsOf(PhiAnnotations(bbid, env, phis)) == phis;
    CountedPhis(b.insts);
  }

  /** The annotated block starts with the phis of the original block. */
  lemma SameStart(f: Func, k: nat)
    requires k < |f.blocks|
    ensures LeadingPhis(Untouched(f.blocks[k].insts)) == PhisOf(AnnotateFunction(f)[k])
  {
    UntouchedPhis(f.blocks[k].insts);
    if f.supported && !f.skipBody {
      var names := BlockOf(f.name, map[], f.blocks, k);
      BlockPhis(f.name, names, f.blocks[k]);
    } else {
      AllBarePhis(f.blocks[k].insts);
    }
  }

  // ---------- the original program runs as its trace says ----------

  /** The original program does what the trace says, without the calls of the logger. */
  ghost predicate SameRun<W>(o: Outcome<W>, t: Trace<W>) {
    o == Outcome(t.status, t.world, Own(t.events))
  }

  lemma {:induction false} OwnAppend<W>(a: seq<Event<W>>, b: seq<Event<W>>)
    ensures Own(a + b) == Own(a) + Own(b)
    decreases a
  {
    if a == [] {
      assert a + b == b;
    } else {
      assert (a + b)[1..] == a[1..] + b;
      OwnAppend(a[1..], b);
      Associate(if a[0].Made? && !a[0].call.SetName? then [] else [a[0]], Own(a[1..]), Own(b));
    }
  }

  lemma {:induction false} OwnMade<W>(calls: seq<Call>)
    requires forall c <- calls :: !c.SetName?
    ensures Own(AllMade<W>(calls)) == []
    decreases calls
  {
    if calls != [] {
      assert calls[0] in calls && AllMade<W>(calls)[1..] == AllMade(calls[1..]);
      OwnMade<W>(calls[1..]);
    }
  }

  lemma OwnSeen<W>(regs: Registers, w: W)
    ensures Own([Seen(regs, w)]) == [Seen(regs, w)]
  {
    assert [Seen(regs, w)][1..] == [];
  }

  /** What the pass logs in front does not show in the original program. */
  lemma InsertedInFront<W>(o: Outcome<W>, t: Trace<W>, calls: seq<Call>)
    requires SameRun(o, t) && forall c <- calls :: !c.SetName?
    ensures SameRun(o, PastT(AllMade(calls), t))
  {
    OwnMade<W>(calls);
    OwnAppend(AllMade(calls), t.events);
    assert [] + Own(t.events) == Own(t.events);
  }

  lemma {:induction false} LineCallsInserted<W>(m: Machine<W>, fr: Frame, ls: seq<Line>)
    ensures forall c <- LineCalls(m, fr, ls) :: !c.SetName?
    decreases ls
  {
    if ls != [] {
      LineCallsInserted(m, fr, ls[1..]);
    }
  }

  lemma LinesInFront<W>(m: Machine<W>, fr: Frame, ls: seq<Line>, o: Outcome<W>, t: Trace<W>)
    requires SameRun(o, t)
    ensures SameRun(o, PrefixedT(Emits(m, fr, ls), t))
  {
    EmitsCalls(m, fr, ls);
    LineCallsInserted(m, fr, ls);
    InsertedInFront(o, WithItems(Emits(m, fr, ls), t), LineCalls(m, fr, ls));
  }

  lemma SeenInFront<W>(o: Outcome<W>, t: Trace<W>, regs: Registers, w: W)
    requires SameRun(o, t)
    ensures SameRun(Past([Seen(regs, w)], o), PastT([Seen(regs, w)], t))
  {
    OwnSeen(regs, w);
    OwnAppend([Seen(regs, w)], t.events);
  }

  lemma CallInFront<W>(r: Outcome<W>, q: Trace<W>, o: Outcome<W>, t: Trace<W>, regs: Registers, w: W)
    requires SameRun(r, q) && SameRun(o, t)
    ensures SameRun(Past(r.events + [Seen(regs, w)], o), PastT(q.events + [Seen(regs, w)], WithItems(q.items, t)))
  {
    OwnSeen(regs, w);
    OwnAppend(q.events, [Seen(regs, w)]);
    OwnAppend(q.events + [Seen(regs, w)], t.events);
  }

  lemma {:induction false} RunBlock<W>(m: Machine<W>, s: Source, fuel: nat, f: Func, at: nat, fr: Frame,
                                       anns: seq<Annotated>, w: W)
    ensures SameRun(ExecNodes(m, UntouchedProgram(s), fuel, UntouchedBody(f), at, fr, map[], Untouched(InstsOf(anns)),
                              w),
                    TraceBlock(m, s, fuel, f, at, fr, anns, w))
    decreases fuel, 2 + |anns|, 0
  {
    if anns != [] {
      var nodes := Untouched(InstsOf(anns));
      assert nodes[0] == Original(anns[0].inst);
      assert nodes[1..] == Untouched(InstsOf(anns[1..]));
      RunInst(m, s, fuel, f, at, fr, anns[0].inst, anns[0].after, anns[1..], w);
      LinesInFront(m, fr, anns[0].before, ExecNodes(m, UntouchedProgram(s), fuel, UntouchedBody(f), at, fr, map[],
                                                    nodes, w),
                   TraceInst(m, s, fuel, f, at, fr, anns[0].inst, anns[0].after, anns[1..], w));
    }
  }

  lemma {:induction false} RunInst<W>(m: Machine<W>, s: Source, fuel: nat, f: Func, at: nat, fr: Frame, i: Inst,
                                      after: seq<Line>, rest: seq<Annotated>, w: W)
    ensures SameRun(ExecInst(m, UntouchedProgram(s), fuel, UntouchedBody(f), at, fr, map[], i,
                             Untouched(InstsOf(rest)), w),
                    TraceInst(m, s, fuel, f, at, fr, i, after, rest, w))
    decreases fuel, 2 + |rest|, 3
  {
    var vals := EvalAll(m, fr, i.args);
    if i.kind.Branch? {
      RunBranch(m, s, fuel, f, at, fr, i.kind.targets, m.branch(i, vals, w), w);
    } else if IsCall(i) {
      RunCalled(m, s, fuel, f, at, fr, i, CalleeName(m, i, vals, w), vals, after, rest, w);
    } else if i.kind.Ret? {
      RunReturn(f, Returned(ReturnValue(vals)), fr.regs, w);
    } else if !i.kind.Invoke? {
      var (v, w') := if i.kind.Phi? then (UNDEF, w) else m.compute(i, vals, w);
      var fr' := if i.kind.Phi? then fr else Define(fr, i, v);
      RunAfter(m, s, fuel, f, at, fr', after, rest, w');
      SeenInFront(ExecNodes(m, UntouchedProgram(s), fuel, UntouchedBody(f), at, fr', map[], Untouched(InstsOf(rest)),
                            w'),
                  TraceAfter(m, s, fuel, f, at, fr', after, rest, w'), fr'.regs, w');
    }
  }

  lemma RunReturn<W>(f: Func, status: Status, regs: Registers, w: W)
    ensures SameRun(Outcome(status, w, [Seen(regs, w)]),
                    Trace(status, w, AllMade(Leave(f)) + [Seen(regs, w)], [], 0))
  {
    OwnSeen(regs, w);
    InsertedInFront(Outcome(status, w, [Seen(regs, w)]), Trace(status, w, [Seen(regs, w)], [], 0), Leave(f));
  }

  lemma {:induction false} RunAfter<W>(m: Machine<W>, s: Source, fuel: nat, f: Func, at: nat, fr: Frame,
                                       after: seq<Line>, rest: seq<Annotated>, w: W)
    ensures SameRun(ExecNodes(m, UntouchedProgram(s), fuel, UntouchedBody(f), at, fr, map[], Untouched(InstsOf(rest)),
                              w),
                    TraceAfter(m, s, fuel, f, at, fr, after, rest, w))
    decreases fuel, 2 + |rest|, 1
  {
    RunBlock(m, s, fuel, f, at, fr, rest, w);
    LinesInFront(m, fr, after,
                 ExecNodes(m, UntouchedProgram(s), fuel, UntouchedBody(f), at, fr, map[], Untouched(InstsOf(rest)), w),
                 TraceBlock(m, s, fuel, f, at, fr, rest, w));
  }

  lemma {:induction false} RunCalled<W>(m: Machine<W>, s: Source, fuel: nat, f: Func, at: nat, fr: Frame, i: Inst,
                                        callee: string, vals: seq<Value>, after: seq<Line>, rest: seq<Annotated>, w: W)
    ensures SameRun(ExecCalled(m, UntouchedProgram(s), fuel, UntouchedBody(f), at, fr, map[], i, callee, vals,
                               Untouched(InstsOf(rest)), w),
                    TraceCalled(m, s, fuel, f, at, fr, i, callee, vals, after, rest, w))
    decreases fuel, 2 + |rest|, 2
  {
    RunCall(m, s, fuel, callee, vals, w);
    var r := TraceCall(m, s, fuel, callee, vals, w);
    if r.status.Returned? {
      var fr' := Define(fr, i, r.status.value);
      RunAfter(m, s, fuel, f, at, fr', after, rest, r.world);
      CallInFront(ExecCall(m, UntouchedProgram(s), fuel, callee, vals, w), r,
                  ExecNodes(m, UntouchedProgram(s), fuel, UntouchedBody(f), at, fr', map[], Untouched(InstsOf(rest)),
                            r.world),
                  TraceAfter(m, s, fuel, f, at, fr', after, rest, r.world), fr'.regs, r.world);
    }
  }

  lemma {:induction false} RunBranch<W>(m: Machine<W>, s: Source, fuel: nat, f: Func, at: nat, fr: Frame,
                                        targets: seq<nat>, t: nat, w: W)
    ensures SameRun(ExecBranch(m, UntouchedProgram(s), fuel, UntouchedBody(f), at, fr, map[], targets, t, w),
                    TraceBranch(m, s, fuel, f, at, fr, targets, t, w))
    decreases fuel, 0, 1
  {
    if t < |targets| && targets[t] < |f.blocks| && fuel > 0 {
      var k := targets[t];
      var next := AnnotateFunction(f)[k];
      SameStart(f, k);
      AnnotateFunctionInsts(f, k);
      var fr' := fr.(regs := PhiRegisters(m, fr, PhisOf(next), at));
      RunBlock(m, s, fuel - 1, f, k, fr', next, w);
      SeenInFront(ExecNodes(m, UntouchedProgram(s), fuel - 1, UntouchedBody(f), k, fr', map[],
                            Untouched(f.blocks[k].insts), w),
                  TraceBlock(m, s, fuel - 1, f, k, fr', next, w), fr.regs, w);
    }
  }

  lemma {:induction false} RunCall<W>(m: Machine<W>, s: Source, fuel: nat, callee: string, args: seq<Value>, w: W)
    ensures SameRun(ExecCall(m, UntouchedProgram(s), fuel, callee, args, w), TraceCall(m, s, fuel, callee, args, w))
    decreases fuel, 1, 0
  {
    if callee == SET_TRACE_NAME {
      var made: seq<Event<W>> := [Made(SetName(m.sessionName(args, w)))];
      assert AllMade<W>([SetName(m.sessionName(args, w))]) == made && made[1..] == [];
    } else if callee in s {
      RunFunction(m, s, fuel, callee, args, w);
    }
  }

  lemma {:induction false} RunFunction<W>(m: Machine<W>, s: Source, fuel: nat, name: string, args: seq<Value>, w: W)
    requires name in s
    ensures SameRun(ExecFunction(m, UntouchedProgram(s), fuel, name, args, w), TraceFunction(m, s, fuel, name, args, w))
    decreases fuel, 0, 0
  {
    var f := s[name];
    if fuel > 0 && f.blocks != [] {
      AnnotateFunctionInsts(f, 0);
      var fr := Frame(map[], args);
      var o := ExecNodes(m, UntouchedProgram(s), fuel - 1, UntouchedBody(f), 0, fr, map[],
                         Untouched(f.blocks[0].insts), w);
      var t := TraceBlock(m, s, fuel - 1, f, 0, fr, AnnotateFunction(f)[0], w);
      RunBlock(m, s, fuel - 1, f, 0, fr, AnnotateFunction(f)[0], w);
      LinesInFront(m, fr, EntryLines(f), o, t);
      RunActivated(f, o, PrefixedT(Emits(m, fr, EntryLines(f)), t));
    }
  }

  lemma RunActivated<W>(f: Func, o: Outcome<W>, body: Trace<W>)
    requires SameRun(o, body)
    ensures SameRun(o, Activated(f, body))
  {
    InsertedInFront(o, body, Activation(f.name, KindOf(f), |f.params|, body.items).Prologue());
  }

  /**
   As long as the logger does not stop it, the instrumented program does what the original one
   does: for every program, arguments, world and fuel, also when the run does not end or gets
   stuck, it ends the same way, and its events without the inserted calls are the events of the
   original run - the registers and the world after every original instruction, and the names
   given to the trace, in the same order. (`Processes.SameMeaning` adds what the logger stops.)
   */
  lemma SameEvents<W>(m: Machine<W>, s: Source, fuel: nat, name: string, args: seq<Value>, w: W)
    requires GoodSource(s) && name in s
    ensures var o := ExecFunction(m, UntouchedProgram(s), fuel, name, args, w);
            var i := ExecFunction(m, Instrumented(s), fuel, name, args, w);
            i.status == o.status && i.world == o.world && Own(i.events) == o.events
  {
    RunFunction(m, s, fuel, name, args, w);
    SimFunction(m, s, fuel, name, args, w);
  }
}
