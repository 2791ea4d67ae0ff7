/**
 What an instrumented function does, step by step, said without the annotation: which lines it logs,
 where it updates the status, and where its own instructions stand (full-trace/full_trace.cpp:381-452,
 480-522, 816-848, 910-1143).
 */
module FunctionContent {
  import opened Wrappers
  import opened Sequences
  import opened StaticIds
  import opened Ir
  import opened Annotations
  import opened Pass
  import opened LineContent

  /** A line is logged, an instruction of the program runs, or the session of the trace is updated. */
  datatype Step = Logged(line: Line) | Ran(inst: Inst) | Called(code: Code)

  /** Buffers, and stores into them, are no steps of their own. */
  function StepsOf(n: Node): seq<Step> {
    match n
    case Original(i) => [Ran(i)]
    case Inserted(Log(l)) => [Logged(l)]
    case Inserted(LogBuffer(l, _)) => [Logged(l)]
    case Inserted(StoreBuffer(_, _)) => []
    case Inserted(Allocate(_)) => []
    case Inserted(code) => [Called(code)]
  }

  function Steps(nodes: seq<Node>): seq<Step>
    decreases nodes
  {
    if nodes == [] then [] else StepsOf(nodes[0]) + Steps(nodes[1..])
  }

  function LoggedAll(ls: seq<Line>): seq<Step> {
    seq(|ls|, k requires 0 <= k < |ls| => Logged(ls[k]))
  }

  function RanAll(insts: seq<Inst>): seq<Step> {
    seq(|insts|, k requires 0 <= k < |insts| => Ran(insts[k]))
  }

  // ---------- names and ids along a block ----------

  /** The d-th of the later instructions is the first declaration of the slot, and no terminator is
      in front of it. */
  predicate Declares(slot: int, later: seq<Inst>, d: nat) {
    && d < |later| && later[d].kind.DebugDeclare? && later[d].kind.address == Some(slot)
    && forall e :: 0 <= e < d ==>
         !later[e].kind.Ret? && !later[e].kind.Branch? && !later[e].kind.Invoke?
         && !(later[e].kind.DebugDeclare? && later[e].kind.address == Some(slot))
  }

  /** The name that an instruction gives its own slot: a bitcast that of the pointer, an alloca
      without a name that of the variable declared at it. */
  ghost predicate Names(varNames: map<int, string>, i: Inst, later: seq<Inst>, name: string) {
    || Renaming(varNames, i, name)
    || (i.kind.Alloca? && i.name.None? && exists d: nat :: Declares(i.slot, later, d) && later[d].kind.variable == name)
  }

  ghost predicate NamesAfter(varNames: map<int, string>, i: Inst, later: seq<Inst>, next: map<int, string>) {
    || (exists name :: Names(varNames, i, later, name) && next == varNames[i.slot := name])
    || (next == varNames && forall name :: !Names(varNames, i, later, name))
  }

  /** Instructions without a name, a slot and a name for it are counted. */
  function CountAfter(env: Env, i: Inst): nat {
    if i.name.None? && i.slot < 0 && i.slot !in env.varNames then env.instc + 1 else env.instc
  }

  // ---------- what is said of each instruction ----------

  /** All but invokes, indirect calls, debug declarations and calls of intrinsics that are not listed. */
  predicate IsTraced(i: Inst) {
    && !i.kind.Invoke? && !i.kind.IndirectCall? && !i.kind.DebugDeclare?
    && (i.kind.DirectCall? && i.kind.intrinsic ==> i.kind.listed)
  }

  /** A return updates the status right in front of it. */
  function AtReturn(f: Func, i: Inst): seq<Step> {
    if i.kind.Ret? then [Called(CallUpdateStatus(f.name, 1, f.tracked))] else []
  }

  ghost predicate LinesAround(f: Func, bbid: string, env: Env, i: Inst, before: seq<Line>, after: seq<Line>) {
    if !IsTraced(i) then before == [] && after == []
    else
      && before != [] && IsHeader(f.name, bbid, env, i, before[0]) && OperandsShown(env.varNames, i, before[1..])
      && exists name :: ResultName(env.varNames, i, before[0].inst, name) && ResultShown(i, name, after)
  }

  ghost predicate EnvAfter(env: Env, i: Inst, later: seq<Inst>, next: Env) {
    if i.kind.Invoke? then next == env
    else
      && next.instc == CountAfter(env, i)
      && if IsTraced(i) then NamesAfter(env.varNames, i, later, next.varNames) else next.varNames == env.varNames
  }

  /** The instructions of a block behind its phis, one after the other. */
  ghost predicate OthersTold(f: Func, bbid: string, env: Env, insts: seq<Inst>, steps: seq<Step>, last: Env)
    decreases insts
  {
    if insts == [] then steps == [] && last == env
    else exists before: seq<Line>, after: seq<Line>, next: Env, rest: seq<Step> ::
      && LinesAround(f, bbid, env, insts[0], before, after) && EnvAfter(env, insts[0], insts[1..], next)
      && OthersTold(f, bbid, next, insts[1..], rest, last)
      && steps == LoggedAll(before) + AtReturn(f, insts[0]) + [Ran(insts[0])] + LoggedAll(after) + rest
  }

  /** The lines of the phis of a block, one after the other. */
  ghost predicate PhisTold(f: Func, bbid: string, env: Env, phis: seq<Inst>, ls: seq<Line>, last: Env)
    requires forall i <- phis :: i.kind.Phi?
    decreases phis
  {
    if phis == [] then ls == [] && last == env
    else exists own: seq<Line>, rest: seq<Line> ::
      && PhiShown(f.name, bbid, env, phis[0], own) && ls == own + rest
      && PhisTold(f, bbid, env.(instc := CountAfter(env, phis[0])), phis[1..], rest, last)
  }

  ghost predicate LeadingPhiCount(insts: seq<Inst>, n: nat) {
    n <= |insts| && (forall i <- insts[..n] :: i.kind.Phi?) && (n < |insts| ==> !insts[n].kind.Phi?)
  }

  /** A block: its phis, their lines, then its other instructions with theirs. */
  ghost predicate BlockTold(f: Func, varNames: map<int, string>, b: Block, steps: seq<Step>, names: map<int, string>) {
    exists n: nat, ls: seq<Line>, rest: seq<Step>, env: Env, last: Env ::
      && LeadingPhiCount(b.insts, n) && PhisTold(f, BlockId(b.ref), Env(varNames, 0), b.insts[..n], ls, env)
      && OthersTold(f, BlockId(b.ref), env, b.insts[n..], rest, last)
      && steps == RanAll(b.insts[..n]) + LoggedAll(ls) + rest && names == last.varNames
  }

  /** The blocks in order, each with the names known so far. */
  ghost predicate BlocksTold(f: Func, varNames: map<int, string>, bs: seq<Block>, all: seq<seq<Step>>)
    decreases bs
  {
    if bs == [] then all == []
    else
      && all != []
      && exists names :: BlockTold(f, varNames, bs[0], all[0], names) && BlocksTold(f, names, bs[1..], all[1..])
  }

  /** What is done at the entry: the session of a tracked function is opened, then its parameters are
      logged. Nothing in main, and nothing in a function without C linkage. */
  ghost predicate EntryTold(f: Func, steps: seq<Step>) {
    if !f.supported || f.name == "main" then steps == []
    else exists ls ::
      && ParamsShown(f, ls)
      && steps == (if !f.tracked then []
                   else [Called(CallUpdateStatus(f.name, 0, true)), Called(CallLogEntry(f.name, |f.params|))])
                  + LoggedAll(ls)
  }

  /** Blocks hold more than phis. */
  ghost predicate WellFormed(f: Func) {
    forall b <- f.blocks :: exists i <- b.insts :: !i.kind.Phi?
  }

  /** The steps of all blocks, behind those of the entry. */
  ghost predicate FunctionTold(f: Func, entry: seq<Step>, all: seq<seq<Step>>) {
    && EntryTold(f, entry) && |all| == |f.blocks|
    && if f.supported && !f.skipBody then BlocksTold(f, map[], f.blocks, all)
       else forall k :: 0 <= k < |all| ==> all[k] == RanAll(f.blocks[k].insts)
  }

  // ---------- the steps of code ----------

  lemma {:induction false} StepsAppend(a: seq<Node>, b: seq<Node>)
    ensures Steps(a + b) == Steps(a) + Steps(b)
    decreases a
  {
    if a == [] {
      assert a + b == b;
    } else {
      assert (a + b)[1..] == a[1..] + b;
      StepsAppend(a[1..], b);
    }
  }

  lemma TwoNodes(a: Node, b: Node)
    ensures Steps([a, b]) == StepsOf(a) + StepsOf(b)
  {
    assert [a, b][1..] == [b] && [b][1..] == [];
    assert Steps([b]) == StepsOf(b) + Steps([]);
  }

  lemma OneLine(l: Line)
    ensures Steps(Nodes(LineCodes(l))) == [Logged(l)]
  {
    var nodes := Nodes(LineCodes(l));
    if ShowsVector(l) {
      TwoNodes(nodes[0], nodes[1]);
      assert nodes == [nodes[0], nodes[1]];
    } else {
      assert nodes[1..] == [];
    }
  }

  lemma LoggedAppend(a: seq<Line>, b: seq<Line>)
    ensures LoggedAll(a + b) == LoggedAll(a) + LoggedAll(b)
  {
  }

  lemma {:induction false} CodesSteps(ls: seq<Line>)
    ensures Steps(Nodes(Codes(ls))) == LoggedAll(ls)
    decreases ls
  {
    if ls != [] {
      OneLine(ls[0]);
      CodesSteps(ls[1..]);
      NodesAppend(LineCodes(ls[0]), Codes(ls[1..]));
      StepsAppend(Nodes(LineCodes(ls[0])), Nodes(Codes(ls[1..])));
      LoggedAppend([ls[0]], ls[1..]);
      assert [ls[0]] + ls[1..] == ls && LoggedAll([ls[0]]) == [Logged(ls[0])];
    }
  }

  function ReturnSteps(f: Func, a: Annotated): seq<Step> {
    if a.id.Some? then AtReturn(f, a.inst) else []
  }

  lemma ReturnCodes(f: Func, a: Annotated)
    ensures Steps(Nodes(BeforeReturn(f, a))) == ReturnSteps(f, a)
  {
    var nodes := Nodes(BeforeReturn(f, a));
    if nodes != [] {
      assert nodes[1..] == [];
    }
  }

  lemma InstSteps(f: Func, a: Annotated)
    ensures Steps(InstNodes(f, a))
            == LoggedAll(a.before) + ReturnSteps(f, a) + [Ran(a.inst)] + LoggedAll(a.after)
  {
    var before, ret, after := Nodes(Codes(a.before)), Nodes(BeforeReturn(f, a)), Nodes(Codes(a.after));
    CodesSteps(a.before);
    ReturnCodes(f, a);
    CodesSteps(a.after);
    NodesAppend(Codes(a.before), BeforeReturn(f, a));
    StepsAppend(before, ret);
    assert [Original(a.inst)][1..] == [];
    StepsAppend(before + ret, [Original(a.inst)]);
    StepsAppend(before + ret + [Original(a.inst)], after);
  }

  // ---------- one instruction ----------

  lemma {:induction false} DeclaredThere(slot: int, later: seq<Inst>, d: nat)
    requires Declares(slot, later, d)
    ensures DeclaredName(slot, later) == Some(later[d].kind.variable)
    decreases later
  {
    if d > 0 {
      DeclaredThere(slot, later[1..], d - 1);
    }
  }

  lemma {:induction false} WhereDeclared(slot: int, later: seq<Inst>) returns (d: nat)
    requires DeclaredName(slot, later).Some?
    ensures Declares(slot, later, d)
    decreases later
  {
    d := 0;
    if !(later[0].kind.DebugDeclare? && later[0].kind.address == Some(slot)) {
      d := WhereDeclared(slot, later[1..]);
      d := d + 1;
    }
  }

  /** The name that AfterResult gives to the slot. */
  function NewName(varNames: map<int, string>, i: Inst, later: seq<Inst>): Option<string> {
    if Renames(varNames, i) then NameOf(i.args[0])
    else if i.kind.Alloca? && i.name.None? then DeclaredName(i.slot, later)
    else None
  }

  lemma NamesExactly(varNames: map<int, string>, i: Inst, later: seq<Inst>, name: string)
    ensures Names(varNames, i, later, name) <==> NewName(varNames, i, later) == Some(name)
  {
    RenamingOf(varNames, i, name);
    if i.kind.Alloca? && i.name.None? {
      if NewName(varNames, i, later).Some? {
        var d := WhereDeclared(i.slot, later);
      }
      forall d: nat | Declares(i.slot, later, d)
        ensures DeclaredName(i.slot, later) == Some(later[d].kind.variable)
      {
        DeclaredThere(i.slot, later, d);
      }
    }
  }

  lemma NamesKnown(varNames: map<int, string>, i: Inst, later: seq<Inst>)
    ensures NamesAfter(varNames, i, later, AfterResult(varNames, i, later))
  {
    match NewName(varNames, i, later)
    case Some(name) =>
      NamesExactly(varNames, i, later, name);
      assert AfterResult(varNames, i, later) == varNames[i.slot := name];
    case None =>
      forall name
        ensures !Names(varNames, i, later, name)
      {
        NamesExactly(varNames, i, later, name);
      }
  }

  lemma EnvKnown(f: Func, bbid: string, env: Env, i: Inst, later: seq<Inst>)
    ensures EnvAfter(env, i, later, Annotate(f.name, bbid, env, i, later).1)
  {
    NamesKnown(env.varNames, i, later);
  }

  lemma LinesKnown(f: Func, bbid: string, env: Env, i: Inst, later: seq<Inst>)
    ensures var a := Annotate(f.name, bbid, env, i, later).0;
            LinesAround(f, bbid, env, i, a.before, a.after) && ReturnSteps(f, a) == AtReturn(f, i)
  {
    if Traced(i) {
      var name := InstContent(f.name, bbid, env, i, later);
    }
  }

  // ---------- a block ----------

  lemma {:induction false} OthersKnown(f: Func, bbid: string, env: Env, insts: seq<Inst>)
    ensures var (anns, last) := AnnotateAll(f.name, bbid, env, insts);
            OthersTold(f, bbid, env, insts, Steps(BlockNodes(f, anns)), last)
    decreases insts
  {
    if insts != [] {
      var (a, next) := Annotate(f.name, bbid, env, insts[0], insts[1..]);
      var (rest, last) := AnnotateAll(f.name, bbid, next, insts[1..]);
      LinesKnown(f, bbid, env, insts[0], insts[1..]);
      EnvKnown(f, bbid, env, insts[0], insts[1..]);
      OthersKnown(f, bbid, next, insts[1..]);
      InstSteps(f, a);
      StepsAppend(InstNodes(f, a), BlockNodes(f, rest));
      assert ([a] + rest)[1..] == rest;
    }
  }

  lemma {:induction false} PhisKnown(f: Func, bbid: string, env: Env, phis: seq<Inst>)
    requires forall i <- phis :: i.kind.Phi?
    ensures PhisTold(f, bbid, env, phis, AllPhiLines(f.name, bbid, env, phis), AfterPhis(bbid, env, phis))
    decreases phis
  {
    if phis != [] {
      var next := AfterPhi(bbid, env, phis[0]);
      PhiContent(f.name, bbid, env, phis[0]);
      assert next == env.(instc := CountAfter(env, phis[0]));
      PhisKnown(f, bbid, next, phis[1..]);
      NextPhis(f, bbid, env, phis, PhiLines(f.name, bbid, env, phis[0]), AllPhiLines(f.name, bbid, next, phis[1..]),
               AfterPhis(bbid, next, phis[1..]));
    }
  }

  lemma NextPhis(f: Func, bbid: string, env: Env, phis: seq<Inst>, own: seq<Line>, rest: seq<Line>, last: Env)
    requires phis != [] && forall i <- phis :: i.kind.Phi?
    requires PhiShown(f.name, bbid, env, phis[0], own)
    requires PhisTold(f, bbid, env.(instc := CountAfter(env, phis[0])), phis[1..], rest, last)
    ensures PhisTold(f, bbid, env, phis, own + rest, last)
  {
  }

  lemma FirstSteps(f: Func, anns: seq<Annotated>)
    requires anns != []
    ensures Steps(BlockNodes(f, anns)) == Steps(InstNodes(f, anns[0])) + Steps(BlockNodes(f, anns[1..]))
  {
    StepsAppend(InstNodes(f, anns[0]), BlockNodes(f, anns[1..]));
  }

  ghost predicate Quiet(f: Func, a: Annotated) {
    a.before == [] && a.after == [] && ReturnSteps(f, a) == []
  }

  lemma QuietStep(f: Func, a: Annotated)
    requires Quiet(f, a)
    ensures Steps(InstNodes(f, a)) == [Ran(a.inst)]
  {
    InstSteps(f, a);
  }

  lemma RanFirst(anns: seq<Annotated>)
    requires anns != []
    ensures RanAll(InstsOf(anns)) == [Ran(anns[0].inst)] + RanAll(InstsOf(anns[1..]))
  {
  }

  lemma {:induction false} QuietSteps(f: Func, anns: seq<Annotated>)
    requires forall k :: 0 <= k < |anns| ==> Quiet(f, anns[k])
    ensures Steps(BlockNodes(f, anns)) == RanAll(InstsOf(anns))
    decreases anns
  {
    if anns != [] {
      QuietStep(f, anns[0]);
      QuietSteps(f, anns[1..]);
      FirstSteps(f, anns);
      RanFirst(anns);
    }
  }

  lemma BareSteps(f: Func, insts: seq<Inst>)
    ensures Steps(BlockNodes(f, Bare(insts))) == RanAll(insts)
  {
    QuietSteps(f, Bare(insts));
    assert InstsOf(Bare(insts)) == insts;
  }

  lemma Regroup<T>(a: seq<T>, b: seq<T>, c: seq<T>, d: seq<T>, e: seq<T>)
    ensures (a + b) + c + d + e == a + (b + c + d + e)
  {
  }

  lemma MoreBefore(f: Func, lines: seq<Line>, a: Annotated)
    ensures Steps(InstNodes(f, a.(before := lines + a.before))) == LoggedAll(lines) + Steps(InstNodes(f, a))
  {
    InstSteps(f, a);
    InstSteps(f, a.(before := lines + a.before));
    LoggedAppend(lines, a.before);
    Regroup(LoggedAll(lines), LoggedAll(a.before), ReturnSteps(f, a), [Ran(a.inst)], LoggedAll(a.after));
  }

  lemma WithLinesSteps(f: Func, lines: seq<Line>, anns: seq<Annotated>)
    requires anns != []
    ensures Steps(BlockNodes(f, WithLines(lines, anns))) == LoggedAll(lines) + Steps(BlockNodes(f, anns))
  {
    var all := WithLines(lines, anns);
    FirstSteps(f, anns);
    FirstSteps(f, all);
    assert all[1..] == anns[1..];
    MoreBefore(f, lines, anns[0]);
    Associate(LoggedAll(lines), Steps(InstNodes(f, anns[0])), Steps(BlockNodes(f, anns[1..])));
  }

  lemma PhiSteps(f: Func, bbid: string, env: Env, phis: seq<Inst>)
    requires forall i <- phis :: i.kind.Phi?
    ensures Steps(BlockNodes(f, PhiAnnotations(bbid, env, phis))) == RanAll(phis)
  {
    QuietSteps(f, PhiAnnotations(bbid, env, phis));
    assert InstsOf(PhiAnnotations(bbid, env, phis)) == phis;
  }

  lemma BlockSteps(f: Func, phis: seq<Annotated>, lines: seq<Line>, anns: seq<Annotated>)
    requires anns != []
    ensures Steps(BlockNodes(f, phis + WithLines(lines, anns)))
            == Steps(BlockNodes(f, phis)) + LoggedAll(lines) + Steps(BlockNodes(f, anns))
  {
    WithLinesSteps(f, lines, anns);
    BlockNodesAppend(f, phis, WithLines(lines, anns));
    StepsAppend(BlockNodes(f, phis), BlockNodes(f, WithLines(lines, anns)));
  }

  lemma PhisCounted(insts: seq<Inst>)
    requires exists i <- insts :: !i.kind.Phi?
    ensures LeadingPhiCount(insts, PhiCount(insts)) && PhiCount(insts) < |insts|
  {
  }

  lemma BlockKnown(f: Func, varNames: map<int, string>, b: Block)
    requires exists i <- b.insts :: !i.kind.Phi?
    ensures var (anns, names) := AnnotateBlock(f.name, varNames, b);
            BlockTold(f, varNames, b, Steps(BlockNodes(f, anns)), names)
  {
    PhisCounted(b.insts);
    var bbid, n, env := BlockId(b.ref), PhiCount(b.insts), Env(varNames, 0);
    var phis, others := b.insts[..n], b.insts[n..];
    var ls := AllPhiLines(f.name, bbid, env, phis);
    var (anns, last) := AnnotateAll(f.name, bbid, AfterPhis(bbid, env, phis), others);
    PhisKnown(f, bbid, env, phis);
    OthersKnown(f, bbid, AfterPhis(bbid, env, phis), others);
    PhiSteps(f, bbid, env, phis);
    BlockSteps(f, PhiAnnotations(bbid, env, phis), ls, anns);
    assert LeadingPhiCount(b.insts, n) && PhisTold(f, bbid, env, phis, ls, AfterPhis(bbid, env, phis));
  }

  // ---------- a function ----------

  function AllSteps(f: Func, blocks: seq<seq<Annotated>>): (r: seq<seq<Step>>)
    ensures |r| == |blocks|
    decreases blocks
  {
    if blocks == [] then [] else [Steps(BlockNodes(f, blocks[0]))] + AllSteps(f, blocks[1..])
  }

  lemma AnnotateFirst(func: string, varNames: map<int, string>, bs: seq<Block>)
    requires bs != []
    ensures var (anns, names) := AnnotateBlock(func, varNames, bs[0]);
            AnnotateBlocks(func, varNames, bs) == [anns] + AnnotateBlocks(func, names, bs[1..])
  {
  }

  lemma AllStepsFirst(f: Func, anns: seq<Annotated>, rest: seq<seq<Annotated>>)
    ensures AllSteps(f, [anns] + rest) == [Steps(BlockNodes(f, anns))] + AllSteps(f, rest)
  {
    assert ([anns] + rest)[1..] == rest;
  }

  lemma FirstBlock(f: Func, varNames: map<int, string>, bs: seq<Block>)
    requires bs != []
    ensures var (anns, names) := AnnotateBlock(f.name, varNames, bs[0]);
            AllSteps(f, AnnotateBlocks(f.name, varNames, bs))
            == [Steps(BlockNodes(f, anns))] + AllSteps(f, AnnotateBlocks(f.name, names, bs[1..]))
  {
    var (anns, names) := AnnotateBlock(f.name, varNames, bs[0]);
    AnnotateFirst(f.name, varNames, bs);
    AllStepsFirst(f, anns, AnnotateBlocks(f.name, names, bs[1..]));
  }

  lemma {:induction false} BlocksKnown(f: Func, varNames: map<int, string>, bs: seq<Block>)
    requires forall b <- bs :: exists i <- b.insts :: !i.kind.Phi?
    ensures BlocksTold(f, varNames, bs, AllSteps(f, AnnotateBlocks(f.name, varNames, bs)))
    decreases bs
  {
    if bs != [] {
      var names := AnnotateBlock(f.name, varNames, bs[0]).1;
      assert bs[0] in bs && forall b <- bs[1..] :: b in bs;
      BlockKnown(f, varNames, bs[0]);
      BlocksKnown(f, names, bs[1..]);
      FirstBlock(f, varNames, bs);
      NextBlocks(f, varNames, bs, Steps(BlockNodes(f, AnnotateBlock(f.name, varNames, bs[0]).0)),
                 AllSteps(f, AnnotateBlocks(f.name, names, bs[1..])), names);
    }
  }

  lemma NextBlocks(f: Func, varNames: map<int, string>, bs: seq<Block>, first: seq<Step>, rest: seq<seq<Step>>,
                   names: map<int, string>)
    requires bs != [] && BlockTold(f, varNames, bs[0], first, names) && BlocksTold(f, names, bs[1..], rest)
    ensures BlocksTold(f, varNames, bs, [first] + rest)
  {
    assert ([first] + rest)[1..] == rest;
  }

  lemma EntryKnown(f: Func)
    ensures EntryTold(f, Steps(Nodes(EntryCodes(f))))
  {
    var ls := EntryLines(f);
    EntryContent(f);
    NodesAppend(EntryUpdates(f), Codes(ls));
    StepsAppend(Nodes(EntryUpdates(f)), Nodes(Codes(ls)));
    CodesSteps(ls);
    UpdateSteps(f);
  }

  lemma UpdateSteps(f: Func)
    ensures Steps(Nodes(EntryUpdates(f)))
            == if f.supported && f.name != "main" && f.tracked
               then [Called(CallUpdateStatus(f.name, 0, true)), Called(CallLogEntry(f.name, |f.params|))]
               else []
  {
    var nodes := Nodes(EntryUpdates(f));
    if nodes != [] {
      TwoNodes(nodes[0], nodes[1]);
      assert nodes == [nodes[0], nodes[1]];
    }
  }

  lemma {:induction false} AllocationSteps(buffers: seq<Type>)
    ensures Steps(Allocations(buffers)) == []
    decreases buffers
  {
    if buffers != [] {
      AllocationSteps(buffers[..|buffers| - 1]);
    }
  }

  lemma {:induction false} AllStepsAt(f: Func, blocks: seq<seq<Annotated>>, k: nat)
    requires k < |blocks|
    ensures AllSteps(f, blocks)[k] == Steps(BlockNodes(f, blocks[k]))
    decreases k
  {
    if k > 0 {
      AllStepsAt(f, blocks[1..], k - 1);
    }
  }

  lemma AllKnown(f: Func)
    requires WellFormed(f)
    ensures var all := AllSteps(f, AnnotateFunction(f));
            if f.supported && !f.skipBody then BlocksTold(f, map[], f.blocks, all)
            else forall k :: 0 <= k < |all| ==> all[k] == RanAll(f.blocks[k].insts)
  {
    if f.supported && !f.skipBody {
      BlocksKnown(f, map[], f.blocks);
    } else {
      forall k | 0 <= k < |f.blocks|
        ensures AllSteps(f, AnnotateFunction(f))[k] == RanAll(f.blocks[k].insts)
      {
        AllStepsAt(f, AnnotateFunction(f), k);
        BareSteps(f, f.blocks[k].insts);
      }
    }
  }

  /**
   What an instrumented function does: the steps of its entry, then in each block what is told of its
   instructions, in order. The steps name every line, its place, number, width, value, register flag
   and name, and no other line is logged.
   */
  lemma FunctionKnown(f: Func) returns (entry: seq<Step>, all: seq<seq<Step>>)
    requires WellFormed(f)
    ensures FunctionTold(f, entry, all)
    ensures forall k :: 0 <= k < |f.blocks| ==> Steps(Instrument(f)[k]) == (if k == 0 then entry else []) + all[k]
  {
    entry, all := Steps(Nodes(EntryCodes(f))), AllSteps(f, AnnotateFunction(f));
    EntryKnown(f);
    AllKnown(f);
    forall k | 0 <= k < |f.blocks|
      ensures Steps(Instrument(f)[k]) == (if k == 0 then entry else []) + all[k]
    {
      InstrumentedSteps(f, k);
    }
  }

  lemma InstrumentedSteps(f: Func, k: nat)
    requires k < |f.blocks|
    ensures Steps(Instrument(f)[k])
            == (if k == 0 then Steps(Nodes(EntryCodes(f))) else []) + AllSteps(f, AnnotateFunction(f))[k]
  {
    AllStepsAt(f, AnnotateFunction(f), k);
    if k == 0 {
      FrontSteps(f, BlockNodes(f, AnnotateFunction(f)[0]));
    }
  }

  /** Buffers are allocated and the entry is logged ahead of the first block. */
  lemma FrontSteps(f: Func, body: seq<Node>)
    ensures Steps(Allocations(BuffersOf(f)) + (Nodes(EntryCodes(f)) + body))
            == Steps(Nodes(EntryCodes(f))) + Steps(body)
  {
    AllocationSteps(BuffersOf(f));
    SilentFront(Allocations(BuffersOf(f)), Nodes(EntryCodes(f)), body);
  }

  lemma SilentFront(a: seq<Node>, b: seq<Node>, c: seq<Node>)
    requires Steps(a) == []
    ensures Steps(a + (b + c)) == Steps(b) + Steps(c)
  {
    StepsAppend(a, b + c);
    StepsAppend(b, c);
  }
}
