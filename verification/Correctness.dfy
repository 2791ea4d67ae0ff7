/**
 The code of the instrumented program against the intended trace, as long as the logger does not
 stop it: for every program, every input and every amount of fuel, the same events in the same
 order and the same outcome, with exactly the logger calls of its trace, but for the returns of
 activations that are still open. (`Processes` adds what the logger stops.)
 */
module Correctness {
  import opened Sequences
  import opened Tokens
  import opened Logger
  import opened Runs
  import opened Ir
  import opened Annotations
  import opened Pass
  import opened Semantics
  import opened InsertedCode
  import opened AnnotationFacts

  ghost predicate GoodIn(s: Source, name: string) {
    name in s ==> GoodFunc(s[name])
  }

  ghost predicate GoodSource(s: Source) {
    forall n: string :: GoodIn(s, n)
  }

  ghost function BodyOf(f: Func): Body {
    Body(f, Instrument(f))
  }

  /** The program that the pass produces. */
  ghost function Instrumented(s: Source): Program {
    map n | n in s :: BodyOf(s[n])
  }

  /** The run has the events of the trace, in their order, and its calls are those of the items, up
      to the returns of the activations that are open; if it returns, `tail` follows. */
  ghost predicate Matches<W>(o: Outcome<W>, t: Trace<W>, tail: seq<Call>) {
    && o.status == t.status && o.world == t.world && o.events == t.events && OpenAt(t.items, t.open)
    && CallsIn(o.events) == CallsSoFar(t.items, t.open) + (if o.status.Returned? then tail else [])
    && (o.status.Returned? ==> t.open == 0)
  }

  // ---------- events and calls ----------

  lemma {:induction false} CallsInAppend<W>(a: seq<Event<W>>, b: seq<Event<W>>)
    ensures CallsIn(a + b) == CallsIn(a) + CallsIn(b)
    decreases a
  {
    if a == [] {
      assert a + b == b;
    } else {
      assert (a + b)[1..] == a[1..] + b;
      CallsInAppend(a[1..], b);
      Associate(if a[0].Made? then [a[0].call] else [], CallsIn(a[1..]), CallsIn(b));
    }
  }

  lemma {:induction false} CallsInMade<W>(calls: seq<Call>)
    ensures CallsIn(AllMade<W>(calls)) == calls
    decreases calls
  {
    if calls != [] {
      assert AllMade<W>(calls)[1..] == AllMade(calls[1..]);
      CallsInMade<W>(calls[1..]);
    }
  }

  lemma CallsInSeen<W>(regs: Registers, w: W)
    ensures CallsIn([Seen(regs, w)]) == []
  {
    assert [Seen(regs, w)][1..] == [];
  }

  // ---------- calls of items ----------

  lemma {:induction false} EmitsCalls<W>(m: Machine<W>, fr: Frame, ls: seq<Line>)
    ensures Calls(Emits(m, fr, ls)) == LineCalls(m, fr, ls)
    decreases ls
  {
    if ls != [] {
      assert Emits(m, fr, ls)[1..] == Emits(m, fr, ls[1..]);
      EmitsCalls(m, fr, ls[1..]);
    }
  }

  lemma MatchesPrefix<W>(o: Outcome<W>, t: Trace<W>, tail: seq<Call>, items: seq<Item>)
    requires Matches(o, t, tail)
    ensures Matches(Prefixed(Calls(items), o), PrefixedT(items, t), tail)
  {
    CallsInMade<W>(Calls(items));
    MatchesEvents(o, t, tail, AllMade(Calls(items)), items);
  }

  /** Some events whose calls are those of some items, in front. */
  lemma MatchesEvents<W>(o: Outcome<W>, t: Trace<W>, tail: seq<Call>, es: seq<Event<W>>, items: seq<Item>)
    requires Matches(o, t, tail) && CallsIn(es) == Calls(items)
    ensures Matches(Past(es, o), PastT(es, WithItems(items, t)), tail)
  {
    CallsSoFarAppend(items, t.items, t.open);
    CallsInAppend(es, o.events);
    Associate(Calls(items), CallsSoFar(t.items, t.open), if o.status.Returned? then tail else []);
  }

  lemma MatchesPast<W>(o: Outcome<W>, t: Trace<W>, tail: seq<Call>, regs: Registers, w: W)
    requires Matches(o, t, tail)
    ensures Matches(Past([Seen(regs, w)], o), PastT([Seen(regs, w)], t), tail)
  {
    CallsInSeen(regs, w);
    CallsInAppend([Seen(regs, w)], o.events);
    assert [] + CallsIn(o.events) == CallsIn(o.events);
  }

  lemma MatchesLines<W>(m: Machine<W>, fr: Frame, ls: seq<Line>, o: Outcome<W>, t: Trace<W>, tail: seq<Call>)
    requires Matches(o, t, tail)
    ensures Matches(Prefixed(LineCalls(m, fr, ls), o), PrefixedT(Emits(m, fr, ls), t), tail)
  {
    EmitsCalls(m, fr, ls);
    MatchesPrefix(o, t, tail, Emits(m, fr, ls));
  }

  // ---------- one instruction with its lines ----------

  lemma SplitInst(f: Func, anns: seq<Annotated>)
    requires anns != []
    ensures var a := anns[0];
            BlockNodes(f, anns) ==
            Nodes(Codes(a.before))
            + (Nodes(BeforeReturn(f, a))
               + ([Original(a.inst)] + (Nodes(Codes(a.after)) + BlockNodes(f, anns[1..]))))
  {
    var a := anns[0];
    var before, ret, own, after, rest :=
      Nodes(Codes(a.before)), Nodes(BeforeReturn(f, a)), [Original(a.inst)], Nodes(Codes(a.after)),
      BlockNodes(f, anns[1..]);
    NodesAppend(Codes(a.before), BeforeReturn(f, a));
    Associate(before + ret + own, after, rest);
    Associate(before + ret, own, after + rest);
    Associate(before, ret, own + (after + rest));
  }

  lemma ExecOriginal<W>(x: Place<W>, fr: Frame, bufs: Buffers, i: Inst, rest: seq<Node>, w: W)
    ensures Exec(x, fr, bufs, [Original(i)] + rest, w) == ExecInst(x.m, x.p, x.fuel, x.c, x.at, fr, bufs, i, rest, w)
  {
    var nodes := [Original(i)] + rest;
    assert nodes != [] && nodes[0] == Original(i) && nodes[1..] == rest;
  }

  lemma ReadyInst(bufs: Buffers, anns: seq<Annotated>)
    requires anns != [] && Ready(bufs, BlockLines(anns))
    ensures Ready(bufs, anns[0].before) && Ready(bufs, anns[0].after) && Ready(bufs, BlockLines(anns[1..]))
  {
    ReadySome(bufs, BlockLines(anns), anns[0].before);
    ReadySome(bufs, BlockLines(anns), anns[0].after);
    ReadySome(bufs, BlockLines(anns), BlockLines(anns[1..]));
  }

  /** Buffers for all blocks of a function. */
  ghost predicate ReadyFor(bufs: Buffers, f: Func) {
    Ready(bufs, BlocksLines(AnnotateFunction(f)))
  }

  lemma ReadyBlock(bufs: Buffers, f: Func, k: nat)
    requires ReadyFor(bufs, f) && k < |f.blocks|
    ensures Ready(bufs, BlockLines(AnnotateFunction(f)[k]))
  {
    InBlocksLines(AnnotateFunction(f), k);
    ReadySome(bufs, BlocksLines(AnnotateFunction(f)), BlockLines(AnnotateFunction(f)[k]));
  }

  // ---------- the simulation ----------

  /** A function of a program, being run. */
  datatype Site<!W> = Site(m: Machine<W>, s: Source, fuel: nat, name: string, at: nat)

  ghost predicate GoodSite<W>(y: Site<W>) {
    GoodSource(y.s) && y.name in y.s
  }

  ghost function PlaceOf<W>(y: Site<W>): Place<W>
    requires y.name in y.s
  {
    Place(y.m, Instrumented(y.s), y.fuel, BodyOf(y.s[y.name]), y.at)
  }

  lemma {:induction false} SimBlock<W>(y: Site<W>, fr: Frame, bufs: Buffers, anns: seq<Annotated>, w: W)
    requires GoodSite(y) && AllFit(y.s[y.name], anns)
    requires ReadyFor(bufs, y.s[y.name]) && Ready(bufs, BlockLines(anns))
    ensures var f := y.s[y.name];
            Matches(Exec(PlaceOf(y), fr, bufs, BlockNodes(f, anns), w),
                    TraceBlock(y.m, y.s, y.fuel, f, y.at, fr, anns, w), Leave(f))
    decreases y.fuel, 2 + |anns|, 0
  {
    if anns != [] {
      var f, x, a, rest := y.s[y.name], PlaceOf(y), anns[0], anns[1..];
      var after := Nodes(Codes(a.after)) + BlockNodes(f, rest);
      var own := [Original(a.inst)] + after;
      SplitInst(f, anns);
      ReadyInst(bufs, anns);
      var bufs' := ExecLines(x, fr, bufs, a.before, Nodes(BeforeReturn(f, a)) + own, w);
      ReadyShape(bufs, bufs', a.after);
      ReadyShape(bufs, bufs', BlockLines(rest));
      ReadyShape(bufs, bufs', BlocksLines(AnnotateFunction(f)));
      assert Fits(f, a);
      SimOwn(y, fr, bufs', a, rest, w);
      MatchesLines(y.m, fr, a.before, Exec(x, fr, bufs', Nodes(BeforeReturn(f, a)) + own, w),
                   TraceInst(y.m, y.s, y.fuel, f, y.at, fr, a.inst, a.after, rest, w), Leave(f));
    }
  }

  /** An instruction after its lines, with the status update in front of a return. */
  lemma {:induction false} SimOwn<W>(y: Site<W>, fr: Frame, bufs: Buffers, a: Annotated, rest: seq<Annotated>, w: W)
    requires GoodSite(y) && Fits(y.s[y.name], a) && AllFit(y.s[y.name], rest)
    requires ReadyFor(bufs, y.s[y.name]) && Ready(bufs, a.after) && Ready(bufs, BlockLines(rest))
    ensures var f := y.s[y.name];
            var own := [Original(a.inst)] + (Nodes(Codes(a.after)) + BlockNodes(f, rest));
            Matches(Exec(PlaceOf(y), fr, bufs, Nodes(BeforeReturn(f, a)) + own, w),
                    TraceInst(y.m, y.s, y.fuel, f, y.at, fr, a.inst, a.after, rest, w), Leave(f))
    decreases y.fuel, 2 + |rest|, 4
  {
    var f, x := y.s[y.name], PlaceOf(y);
    var after := Nodes(Codes(a.after)) + BlockNodes(f, rest);
    var own := [Original(a.inst)] + after;
    ExecOriginal(x, fr, bufs, a.inst, after, w);
    if a.inst.kind.Ret? {
      SimReturn(y, fr, bufs, a, rest, w);
    } else {
      assert Nodes(BeforeReturn(f, a)) + own == own;
      SimInst(y, fr, bufs, a, rest, w);
    }
  }

  lemma SimReturn<W>(y: Site<W>, fr: Frame, bufs: Buffers, a: Annotated, rest: seq<Annotated>, w: W)
    requires GoodSite(y) && Fits(y.s[y.name], a) && a.inst.kind.Ret?
    ensures var f := y.s[y.name];
            var own := [Original(a.inst)] + (Nodes(Codes(a.after)) + BlockNodes(f, rest));
            Matches(Exec(PlaceOf(y), fr, bufs, Nodes(BeforeReturn(f, a)) + own, w),
                    TraceInst(y.m, y.s, y.fuel, f, y.at, fr, a.inst, a.after, rest, w), Leave(f))
  {
    var f, x := y.s[y.name], PlaceOf(y);
    var after := Nodes(Codes(a.after)) + BlockNodes(f, rest);
    var own := [Original(a.inst)] + after;
    ExecOriginal(x, fr, bufs, a.inst, after, w);
    CallsInMade<W>(Leave(f));
    CallsInSeen(fr.regs, w);
    CallsInAppend(AllMade(Leave(f)), [Seen(fr.regs, w)]);
    assert [] + Leave(f) == Leave(f) + [];
    if a.id.Some? {
      ExecUpdate(x, fr, bufs, f.name, RET_OP, f.tracked, own, w);
    } else {
      assert Nodes(BeforeReturn(f, a)) + own == own;
      assert AllMade<W>(Leave(f)) + [Seen(fr.regs, w)] == [Seen(fr.regs, w)];
    }
  }

  /** The lines after an instruction, and the rest of the block. */
  lemma {:induction false} SimAfter<W>(y: Site<W>, fr: Frame, bufs: Buffers, after: seq<Line>, rest: seq<Annotated>,
                                       w: W)
    requires GoodSite(y) && AllFit(y.s[y.name], rest)
    requires ReadyFor(bufs, y.s[y.name]) && Ready(bufs, after) && Ready(bufs, BlockLines(rest))
    ensures var f := y.s[y.name];
            Matches(Exec(PlaceOf(y), fr, bufs, Nodes(Codes(after)) + BlockNodes(f, rest), w),
                    TraceAfter(y.m, y.s, y.fuel, f, y.at, fr, after, rest, w), Leave(f))
    decreases y.fuel, 2 + |rest|, 1
  {
    var f, x := y.s[y.name], PlaceOf(y);
    var bufs' := ExecLines(x, fr, bufs, after, BlockNodes(f, rest), w);
    ReadyShape(bufs, bufs', BlockLines(rest));
    ReadyShape(bufs, bufs', BlocksLines(AnnotateFunction(f)));
    SimBlock(y, fr, bufs', rest, w);
    MatchesLines(y.m, fr, after, Exec(x, fr, bufs', BlockNodes(f, rest), w),
                 TraceBlock(y.m, y.s, y.fuel, f, y.at, fr, rest, w), Leave(f));
  }

  lemma {:induction false} SimInst<W>(y: Site<W>, fr: Frame, bufs: Buffers, a: Annotated, rest: seq<Annotated>, w: W)
    requires GoodSite(y) && Fits(y.s[y.name], a) && AllFit(y.s[y.name], rest) && !a.inst.kind.Ret?
    requires ReadyFor(bufs, y.s[y.name]) && Ready(bufs, a.after) && Ready(bufs, BlockLines(rest))
    ensures var f, x := y.s[y.name], PlaceOf(y);
            Matches(ExecInst(x.m, x.p, x.fuel, x.c, x.at, fr, bufs, a.inst,
                             Nodes(Codes(a.after)) + BlockNodes(f, rest), w),
                    TraceInst(y.m, y.s, y.fuel, f, y.at, fr, a.inst, a.after, rest, w), Leave(f))
    decreases y.fuel, 2 + |rest|, 3
  {
    var vals := EvalAll(y.m, fr, a.inst.args);
    if a.inst.kind.Branch? {
      SimBranch(y, fr, bufs, a.inst.kind.targets, y.m.branch(a.inst, vals, w), w);
    } else if IsCall(a.inst) {
      SimCalled(y, fr, bufs, a.inst, CalleeName(y.m, a.inst, vals, w), vals, a.after, rest, w);
    } else if !a.inst.kind.Invoke? {
      SimPlain(y, fr, bufs, a, rest, w);
    }
  }

  lemma {:induction false} SimPlain<W>(y: Site<W>, fr: Frame, bufs: Buffers, a: Annotated, rest: seq<Annotated>, w: W)
    requires GoodSite(y) && AllFit(y.s[y.name], rest)
    requires !a.inst.kind.Ret? && !a.inst.kind.Branch? && !a.inst.kind.Invoke? && !IsCall(a.inst)
    requires ReadyFor(bufs, y.s[y.name]) && Ready(bufs, a.after) && Ready(bufs, BlockLines(rest))
    ensures var f, x := y.s[y.name], PlaceOf(y);
            Matches(ExecInst(x.m, x.p, x.fuel, x.c, x.at, fr, bufs, a.inst,
                             Nodes(Codes(a.after)) + BlockNodes(f, rest), w),
                    TraceInst(y.m, y.s, y.fuel, f, y.at, fr, a.inst, a.after, rest, w), Leave(f))
    decreases y.fuel, 2 + |rest|, 2
  {
    var f, x, i := y.s[y.name], PlaceOf(y), a.inst;
    var nodes := Nodes(Codes(a.after)) + BlockNodes(f, rest);
    var (v, w') := if i.kind.Phi? then (UNDEF, w) else y.m.compute(i, EvalAll(y.m, fr, i.args), w);
    var fr' := if i.kind.Phi? then fr else Define(fr, i, v);
    SimAfter(y, fr', bufs, a.after, rest, w');
    MatchesPast(Exec(x, fr', bufs, nodes, w'), TraceAfter(y.m, y.s, y.fuel, f, y.at, fr', a.after, rest, w'), Leave(f),
                fr'.regs, w');
  }

  lemma CalledThen<W>(r: Outcome<W>, q: Trace<W>, o: Outcome<W>, t: Trace<W>, tail: seq<Call>, regs: Registers, w: W)
    requires Matches(r, q, []) && r.status.Returned? && Matches(o, t, tail)
    ensures var es := r.events + [Seen(regs, w)];
            Matches(Past(es, o), PastT(es, WithItems(q.items, t)), tail)
  {
    CallsInSeen(regs, w);
    CallsInAppend(r.events, [Seen(regs, w)]);
    assert Calls(q.items) + [] + [] == Calls(q.items);
    MatchesEvents(o, t, tail, r.events + [Seen(regs, w)], q.items);
  }

  lemma {:induction false} SimCalled<W>(y: Site<W>, fr: Frame, bufs: Buffers, i: Inst, callee: string, vals: seq<Value>,
                                        after: seq<Line>, rest: seq<Annotated>, w: W)
    requires GoodSite(y) && AllFit(y.s[y.name], rest)
    requires ReadyFor(bufs, y.s[y.name]) && Ready(bufs, after) && Ready(bufs, BlockLines(rest))
    ensures var f, x := y.s[y.name], PlaceOf(y);
            Matches(ExecCalled(x.m, x.p, x.fuel, x.c, x.at, fr, bufs, i, callee, vals,
                               Nodes(Codes(after)) + BlockNodes(f, rest), w),
                    TraceCalled(y.m, y.s, y.fuel, f, y.at, fr, i, callee, vals, after, rest, w), Leave(f))
    decreases y.fuel, 2 + |rest|, 2
  {
    var f, x := y.s[y.name], PlaceOf(y);
    SimCall(y.m, y.s, y.fuel, callee, vals, w);
    var r, q := ExecCall(x.m, x.p, x.fuel, callee, vals, w), TraceCall(y.m, y.s, y.fuel, callee, vals, w);
    if r.status.Returned? {
      var fr' := Define(fr, i, r.status.value);
      SimAfter(y, fr', bufs, after, rest, r.world);
      CalledThen(r, q, Exec(x, fr', bufs, Nodes(Codes(after)) + BlockNodes(f, rest), r.world),
                 TraceAfter(y.m, y.s, y.fuel, f, y.at, fr', after, rest, r.world), Leave(f),
                 fr'.regs, r.world);
    }
  }

  ghost function Jumped<W>(y: Site<W>, k: nat): Site<W>
    requires y.fuel > 0
  {
    y.(fuel := y.fuel - 1, at := k)
  }

  /** The run from the start of a block on, entered from another block. */
  function AfterJump<W>(x: Place<W>, from: nat, fr: Frame, bufs: Buffers, w: W): Outcome<W>
    requires x.at < |x.c.blocks|
  {
    var nodes := x.c.blocks[x.at];
    Past([Seen(fr.regs, w)], Exec(x, fr.(regs := PhiRegisters(x.m, fr, LeadingPhis(nodes), from)), bufs, nodes, w))
  }

  lemma ExecTaken<W>(x: Place<W>, fr: Frame, bufs: Buffers, targets: seq<nat>, t: nat, w: W)
    requires t < |targets| && targets[t] < |x.c.blocks| && x.fuel > 0
    ensures ExecBranch(x.m, x.p, x.fuel, x.c, x.at, fr, bufs, targets, t, w)
         == AfterJump(x.(fuel := x.fuel - 1, at := targets[t]), x.at, fr, bufs, w)
  {
  }

  lemma TraceTaken<W>(y: Site<W>, fr: Frame, targets: seq<nat>, t: nat, w: W)
    requires y.name in y.s && t < |targets| && targets[t] < |y.s[y.name].blocks| && y.fuel > 0
    ensures TraceBranch(y.m, y.s, y.fuel, y.s[y.name], y.at, fr, targets, t, w)
            == AfterJumpT(Jumped(y, targets[t]), y.at, fr, w)
  {
  }

  predicate Taken<W>(y: Site<W>, targets: seq<nat>, t: nat)
    requires y.name in y.s
  {
    t < |targets| && targets[t] < |y.s[y.name].blocks| && y.fuel > 0
  }

  ghost predicate BranchMatches<W>(y: Site<W>, fr: Frame, bufs: Buffers, targets: seq<nat>, t: nat, w: W)
    requires y.name in y.s
  {
    var f, x := y.s[y.name], PlaceOf(y);
    Matches(ExecBranch(x.m, x.p, x.fuel, x.c, x.at, fr, bufs, targets, t, w),
            TraceBranch(y.m, y.s, y.fuel, f, y.at, fr, targets, t, w), Leave(f))
  }

  lemma {:induction false} SimBranch<W>(y: Site<W>, fr: Frame, bufs: Buffers, targets: seq<nat>, t: nat, w: W)
    requires GoodSite(y) && 0 !in targets && ReadyFor(bufs, y.s[y.name])
    ensures BranchMatches(y, fr, bufs, targets, t, w)
    decreases y.fuel, 1, 0
  {
    if Taken(y, targets, t) {
      assert targets[t] in targets;
      SimTaken(y, fr, bufs, targets, t, w);
    } else {
      SimNotTaken(y, fr, bufs, targets, t, w);
    }
  }

  lemma SimNotTaken<W>(y: Site<W>, fr: Frame, bufs: Buffers, targets: seq<nat>, t: nat, w: W)
    requires y.name in y.s && !Taken(y, targets, t)
    ensures BranchMatches(y, fr, bufs, targets, t, w)
  {
  }

  lemma {:induction false} SimTaken<W>(y: Site<W>, fr: Frame, bufs: Buffers, targets: seq<nat>, t: nat, w: W)
    requires GoodSite(y) && ReadyFor(bufs, y.s[y.name])
    requires t < |targets| && 0 < targets[t] < |y.s[y.name].blocks| && y.fuel > 0
    ensures BranchMatches(y, fr, bufs, targets, t, w)
    decreases y.fuel, 0, 1
  {
    var x, k := PlaceOf(y), targets[t];
    assert PlaceOf(Jumped(y, k)) == x.(fuel := x.fuel - 1, at := k);
    ExecTaken(x, fr, bufs, targets, t, w);
    TraceTaken(y, fr, targets, t, w);
    SimJump(Jumped(y, k), y.at, fr, bufs, w);
  }

  ghost function AfterJumpT<W>(y: Site<W>, from: nat, fr: Frame, w: W): Trace<W>
    requires y.name in y.s && y.at < |y.s[y.name].blocks|
  {
    var f := y.s[y.name];
    var next := AnnotateFunction(f)[y.at];
    PastT([Seen(fr.regs, w)],
          TraceBlock(y.m, y.s, y.fuel, f, y.at, fr.(regs := PhiRegisters(y.m, fr, PhisOf(next), from)), next, w))
  }

  /** Every block but the entry block is run as it was annotated, from the same phis. */
  lemma LaterBlock(f: Func, k: nat)
    requires GoodBlocks(f.blocks) && 0 < k < |f.blocks|
    ensures Instrument(f)[k] == BlockNodes(f, AnnotateFunction(f)[k])
    ensures LeadingPhis(Instrument(f)[k]) == PhisOf(AnnotateFunction(f)[k])
  {
    FunctionFits(f, k);
    SamePhis(f, AnnotateFunction(f)[k]);
  }

  lemma {:induction false} SimJump<W>(y: Site<W>, from: nat, fr: Frame, bufs: Buffers, w: W)
    requires GoodSite(y) && ReadyFor(bufs, y.s[y.name]) && 0 < y.at < |y.s[y.name].blocks|
    ensures Matches(AfterJump(PlaceOf(y), from, fr, bufs, w), AfterJumpT(y, from, fr, w), Leave(y.s[y.name]))
    decreases y.fuel, 2 + |AnnotateFunction(y.s[y.name])[y.at]|, 1
  {
    var f, x := y.s[y.name], PlaceOf(y);
    var next := AnnotateFunction(f)[y.at];
    assert GoodIn(y.s, y.name);
    LaterBlock(f, y.at);
    FunctionFits(f, y.at);
    ReadyBlock(bufs, f, y.at);
    var fr' := fr.(regs := PhiRegisters(y.m, fr, PhisOf(next), from));
    SimBlock(y, fr', bufs, next, w);
    MatchesPast(Exec(x, fr', bufs, BlockNodes(f, next), w), TraceBlock(y.m, y.s, y.fuel, f, y.at, fr', next, w),
                Leave(f), fr.regs, w);
  }

  lemma {:induction false} SimCall<W>(m: Machine<W>, s: Source, fuel: nat, callee: string, args: seq<Value>, w: W)
    requires GoodSource(s)
    ensures Matches(ExecCall(m, Instrumented(s), fuel, callee, args, w), TraceCall(m, s, fuel, callee, args, w), [])
    decreases fuel, 1, 0
  {
    if callee == SET_TRACE_NAME {
      OneItem(Rename(m.sessionName(args, w)));
      CallsInMade<W>([SetName(m.sessionName(args, w))]);
    } else if callee in s {
      SimFunction(m, s, fuel, callee, args, w);
    }
  }

  /**
   The simulation: a call of a function of the instrumented program, with any arguments in any
   world and for any fuel, has the events of its trace, states seen and calls made, in the same
   order, and ends the same way, unless the logger stops it on the way. Whether it returns or not,
   the calls are exactly those of the items of the trace, but for the returns of the activations
   that are still open.
   */
  lemma {:induction false} SimFunction<W>(m: Machine<W>, s: Source, fuel: nat, name: string, args: seq<Value>, w: W)
    requires GoodSource(s) && name in s
    ensures Matches(ExecFunction(m, Instrumented(s), fuel, name, args, w), TraceFunction(m, s, fuel, name, args, w), [])
    decreases fuel, 0, 0
  {
    if fuel > 0 && s[name].blocks != [] {
      SimEntered(m, s, fuel, name, args, w);
    }
  }

  /** A call runs the allocations, then what the entry logs, then the body. */
  lemma ExecEntered<W>(m: Machine<W>, s: Source, fuel: nat, name: string, args: seq<Value>, w: W)
    returns (bufs: Buffers)
    requires GoodSource(s) && name in s && fuel > 0 && s[name].blocks != []
    ensures Ready(bufs, AllLines(s[name]))
    ensures var f := s[name];
            ExecFunction(m, Instrumented(s), fuel, name, args, w)
            == Exec(PlaceOf(Site(m, s, fuel - 1, name, 0)), Frame(map[], args), bufs,
                    Nodes(EntryCodes(f)) + BlockNodes(f, AnnotateFunction(f)[0]), w)
  {
    var rest := Nodes(EntryCodes(s[name])) + BlockNodes(s[name], AnnotateFunction(s[name])[0]);
    var x := EnterInstrumented(m, s, fuel, name, args, w, rest);
    GoodAt(s, name);
    bufs := ExecBuffers(x, Frame(map[], args), s[name], rest, w);
  }

  lemma GoodAt(s: Source, name: string)
    requires GoodSource(s) && name in s
    ensures GoodFunc(s[name])
  {
    assert GoodIn(s, name);
  }

  lemma EnterInstrumented<W>(m: Machine<W>, s: Source, fuel: nat, name: string, args: seq<Value>, w: W, rest: seq<Node>)
    returns (x: Place<W>)
    requires name in s && fuel > 0 && s[name].blocks != []
    requires rest == Nodes(EntryCodes(s[name])) + BlockNodes(s[name], AnnotateFunction(s[name])[0])
    ensures x == PlaceOf(Site(m, s, fuel - 1, name, 0))
    ensures ExecFunction(m, Instrumented(s), fuel, name, args, w)
            == Exec(x, Frame(map[], args), map[], Allocations(BuffersOf(s[name])) + rest, w)
  {
    var p := Instrumented(s);
    assert p[name] == BodyOf(s[name]);
    x := Place(m, p, fuel - 1, p[name], 0);
    ExecEnter(m, p, fuel, name, args, w);
    EntryBlock(s[name]);
  }

  /** A call that has fuel and something to run. */
  lemma {:induction false} SimEntered<W>(m: Machine<W>, s: Source, fuel: nat, name: string, args: seq<Value>, w: W)
    requires GoodSource(s) && name in s && fuel > 0 && s[name].blocks != []
    ensures Matches(ExecFunction(m, Instrumented(s), fuel, name, args, w), TraceFunction(m, s, fuel, name, args, w), [])
    decreases fuel - 1, 3 + |AnnotateFunction(s[name])[0]|, 0
  {
    var bufs := ExecEntered(m, s, fuel, name, args, w);
    TraceEnter(m, s, fuel, name, args, w);
    SimEntry(Site(m, s, fuel - 1, name, 0), Frame(map[], args), bufs, w);
  }

  lemma ExecEnter<W>(m: Machine<W>, p: Program, fuel: nat, name: string, args: seq<Value>, w: W)
    requires name in p && fuel > 0 && p[name].blocks != []
    ensures ExecFunction(m, p, fuel, name, args, w)
         == Exec(Place(m, p, fuel - 1, p[name], 0), Frame(map[], args), map[], p[name].blocks[0], w)
  {
  }

  /** The trace of a body as one activation. */
  ghost function Entered<W>(y: Site<W>, fr: Frame, w: W): Trace<W>
    requires y.name in y.s && y.at == 0 && y.s[y.name].blocks != []
  {
    var f := y.s[y.name];
    var t := TraceBlock(y.m, y.s, y.fuel, f, 0, fr, AnnotateFunction(f)[0], w);
    Activated(f, PrefixedT(Emits(y.m, fr, EntryLines(f)), t))
  }

  lemma TraceEnter<W>(m: Machine<W>, s: Source, fuel: nat, name: string, args: seq<Value>, w: W)
    requires name in s && fuel > 0 && s[name].blocks != []
    ensures TraceFunction(m, s, fuel, name, args, w) == Entered(Site(m, s, fuel - 1, name, 0), Frame(map[], args), w)
  {
  }

  lemma EntryBlock(f: Func)
    requires f.blocks != []
    ensures Instrument(f)[0]
            == Allocations(BuffersOf(f)) + (Nodes(EntryCodes(f)) + BlockNodes(f, AnnotateFunction(f)[0]))
  {
  }

  /** The allocations in front of a function serve all its lines. */
  lemma ExecBuffers<W>(x: Place<W>, fr: Frame, f: Func, rest: seq<Node>, w: W)
    returns (bufs: Buffers)
    requires GoodFunc(f)
    ensures Ready(bufs, AllLines(f))
    ensures Exec(x, fr, map[], Allocations(BuffersOf(f)) + rest, w) == Exec(x, fr, bufs, rest, w)
  {
    AddBuffersProvides([], AllLines(f));
    bufs := ExecAllocations(x, fr, map[], BuffersOf(f), rest, w);
    BuffersServe(bufs, BuffersOf(f), AllLines(f));
  }

  lemma {:induction false} SimEntry<W>(y: Site<W>, fr: Frame, bufs: Buffers, w: W)
    requires GoodSite(y) && y.at == 0 && y.s[y.name].blocks != [] && Ready(bufs, AllLines(y.s[y.name]))
    ensures var f := y.s[y.name];
            Matches(Exec(PlaceOf(y), fr, bufs, Nodes(EntryCodes(f)) + BlockNodes(f, AnnotateFunction(f)[0]), w),
                    Entered(y, fr, w), [])
    decreases y.fuel, 2 + |AnnotateFunction(y.s[y.name])[0]|, 1
  {
    var f, x := y.s[y.name], PlaceOf(y);
    var anns := AnnotateFunction(f)[0];
    var body := BlockNodes(f, anns);
    var lines := EntryLines(f);
    assert GoodIn(y.s, y.name);
    ReadySome(bufs, AllLines(f), lines);
    ReadySome(bufs, AllLines(f), BlocksLines(AnnotateFunction(f)));
    NodesAppend(EntryUpdates(f), Codes(lines));
    Associate(Nodes(EntryUpdates(f)), Nodes(Codes(lines)), body);
    var t := TraceBlock(y.m, y.s, y.fuel, f, 0, fr, anns, w);
    var items := Emits(y.m, fr, lines) + t.items;
    ExecEntryUpdates(x, fr, bufs, f, items, Nodes(Codes(lines)) + body, w);
    var bufs' := ExecLines(x, fr, bufs, lines, body, w);
    ReadyShape(bufs, bufs', BlocksLines(AnnotateFunction(f)));
    ReadyBlock(bufs', f, 0);
    FunctionFits(f, 0);
    SimBlock(y, fr, bufs', anns, w);
    var o := Exec(x, fr, bufs', body, w);
    MatchesLines(y.m, fr, lines, o, t, Leave(f));
    WholeActivation(f, Prefixed(LineCalls(y.m, fr, lines), o), PrefixedT(Emits(y.m, fr, lines), t));
  }

  lemma OneOpen(i: Item, n: nat)
    requires i.Activation? && OpenAt(i.items, n)
    ensures OpenAt([i], n + 1) && CallsSoFar([i], n + 1) == i.Prologue() + CallsSoFar(i.items, n)
  {
    assert [i][..0] == [];
    var made := i.Prologue() + CallsSoFar(i.items, n);
    assert [] + made == made;
  }

  lemma OneClosed(i: Item)
    requires i.Activation?
    ensures Calls([i]) == i.Prologue() + (Calls(i.items) + i.Epilogue())
  {
    OneItem(i);
    Associate(i.Prologue(), Calls(i.items), i.Epilogue());
  }

  lemma CallsInFront<W>(calls: seq<Call>, es: seq<Event<W>>)
    ensures CallsIn(AllMade(calls) + es) == calls + CallsIn(es)
  {
    CallsInMade<W>(calls);
    CallsInAppend(AllMade(calls), es);
  }

  /** The calls of the entry and the return make the items of a body one activation; without the
      return it is open. */
  lemma WholeActivation<W>(f: Func, o: Outcome<W>, t: Trace<W>)
    requires Matches(o, t, Leave(f))
    ensures var i := Activation(f.name, KindOf(f), |f.params|, t.items);
            Matches(Prefixed(i.Prologue(), o), Activated(f, t), [])
  {
    var i := Activation(f.name, KindOf(f), |f.params|, t.items);
    CallsInFront(i.Prologue(), o.events);
    if o.status.Returned? {
      OneClosed(i);
      assert Calls([i]) + [] == Calls([i]);
    } else {
      OneOpen(i, t.open);
      var made := CallsSoFar(t.items, t.open);
      assert i.Prologue() + (made + []) == i.Prologue() + made + [];
    }
  }
}
