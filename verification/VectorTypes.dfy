/**
 Which vectors the shared buffers can serve (full-trace/full_trace.cpp:1153-1182): when all
 vector elements are whole bytes and no pointers nothing clashes; and what a clash does.
 */
module VectorTypes {
  import opened Wrappers
  import opened Sequences
  import opened Tokens
  import opened StaticIds
  import opened TraceText
  import opened Ir
  import opened Annotations
  import opened Pass
  import opened Semantics
  import opened InsertedCode
  import opened Preservation
  import Correctness

  ghost predicate WholeLine(l: Line) {
    ShowsVector(l) ==> WholeBytes(TypeOf(l.value.operand))
  }

  /** All vectors shown have elements of whole bytes that are no pointers. */
  ghost predicate WholeLines(ls: seq<Line>) {
    forall l <- ls :: WholeLine(l)
  }

  ghost predicate WholeInst(i: Inst) {
    WholeBytes(i.ty) && forall a <- i.args :: WholeBytes(TypeOf(a))
  }

  ghost predicate WholeInsts(insts: seq<Inst>) {
    forall i <- insts :: WholeInst(i)
  }

  ghost predicate WholeFunc(f: Func) {
    (forall p <- f.params :: WholeBytes(TypeOf(p))) && forall b <- f.blocks :: WholeInsts(b.insts)
  }

  // ---------- lines show operands of the instruction only ----------

  lemma OperandWhole(varNames: map<int, string>, index: nat, o: Operand, intrinsic: bool)
    requires WholeBytes(TypeOf(o))
    ensures WholeLines(OperandLines(varNames, index, o, intrinsic))
  {
  }

  lemma PhiOperandWhole(varNames: map<int, string>, index: nat, o: Operand, pred: BlockRef)
    requires WholeBytes(TypeOf(o))
    ensures WholeLines(PhiOperandLines(varNames, index, o, pred))
  {
  }

  lemma WholeTogether(a: seq<Line>, b: seq<Line>, all: seq<Line>)
    requires WholeLines(a) && WholeLines(b) && all == a + b
    ensures WholeLines(all)
  {
    assert forall l <- all :: l in a || l in b;
  }

  lemma {:induction false} LinesDownWhole(varNames: map<int, string>, i: Inst, n: nat)
    requires n <= |i.args| && WholeInst(i)
    ensures WholeLines(LinesDown(varNames, i, n))
  {
    if n > 0 {
      assert i.args[n - 1] in i.args;
      LinesDownWhole(varNames, i, n - 1);
    }
  }

  lemma {:induction false} PhiLinesDownWhole(varNames: map<int, string>, i: Inst, n: nat)
    requires i.kind.Phi? && n <= |i.args| && n <= |i.kind.preds| && WholeInst(i)
    ensures WholeLines(PhiLinesDown(varNames, i, n))
  {
    if n > 0 {
      assert i.args[n - 1] in i.args;
      PhiLinesDownWhole(varNames, i, n - 1);
      PhiOperandWhole(varNames, n - 1, i.args[n - 1], i.kind.preds[n - 1]);
      WholeTogether(PhiOperandLines(varNames, n - 1, i.args[n - 1], i.kind.preds[n - 1]),
                    PhiLinesDown(varNames, i, n - 1), PhiLinesDown(varNames, i, n));
    }
  }

  lemma {:induction false} ArgumentLinesWhole(varNames: map<int, string>, i: Inst, k: nat)
    requires i.kind.DirectCall? && WholeInst(i)
    ensures WholeLines(ArgumentLines(varNames, i, k))
    decreases |i.args| - k
  {
    if k < |i.args| && k < i.kind.formals {
      assert i.args[k] in i.args;
      ArgumentLinesWhole(varNames, i, k + 1);
      OperandWhole(varNames, k, i.args[k], i.kind.intrinsic);
      WholeTogether(OperandLines(varNames, k, i.args[k], i.kind.intrinsic),
                    ArgumentLines(varNames, i, k + 1), ArgumentLines(varNames, i, k));
    }
  }

  lemma AllOperandLinesWhole(varNames: map<int, string>, i: Inst)
    requires WholeInst(i)
    ensures WholeLines(AllOperandLines(varNames, i))
  {
    if i.kind.DirectCall? {
      ArgumentLinesWhole(varNames, i, 0);
    } else {
      LinesDownWhole(varNames, i, |i.args|);
    }
  }

  lemma {:induction false} ParamLinesFromWhole(f: Func, k: nat)
    requires WholeFunc(f)
    ensures WholeLines(ParamLinesFrom(f, k))
    decreases |f.params| - k
  {
    if k < |f.params| {
      assert f.params[k] in f.params;
      ParamLinesFromWhole(f, k + 1);
    }
  }

  lemma PhiLinesWhole(func: string, bbid: string, env: Env, i: Inst)
    requires i.kind.Phi? && WholeInst(i)
    ensures WholeLines(PhiLines(func, bbid, env, i))
  {
    PhiLinesDownWhole(env.varNames, i, if |i.args| <= |i.kind.preds| then |i.args| else |i.kind.preds|);
  }

  lemma {:induction false} AllPhiLinesWhole(func: string, bbid: string, env: Env, phis: seq<Inst>)
    requires (forall i <- phis :: i.kind.Phi?) && WholeInsts(phis)
    ensures WholeLines(AllPhiLines(func, bbid, env, phis))
    decreases phis
  {
    if phis != [] {
      PhiLinesWhole(func, bbid, env, phis[0]);
      AllPhiLinesWhole(func, bbid, AfterPhi(bbid, env, phis[0]), phis[1..]);
    }
  }

  // ---------- all lines of a function ----------

  ghost predicate WholeAnnotated(anns: seq<Annotated>) {
    forall a <- anns :: WholeLines(a.before) && WholeLines(a.after)
  }

  lemma {:induction false} AnnotateAllWhole(func: string, bbid: string, env: Env, insts: seq<Inst>)
    requires WholeInsts(insts)
    ensures WholeAnnotated(AnnotateAll(func, bbid, env, insts).0)
    decreases insts
  {
    if insts != [] {
      assert insts[0] in insts;
      AllOperandLinesWhole(env.varNames, insts[0]);
      AnnotateAllWhole(func, bbid, Annotate(func, bbid, env, insts[0], insts[1..]).1, insts[1..]);
    }
  }

  lemma WithLinesWhole(lines: seq<Line>, anns: seq<Annotated>)
    requires WholeLines(lines) && WholeAnnotated(anns)
    ensures WholeAnnotated(WithLines(lines, anns))
  {
    if anns != [] {
      assert anns[0] in anns;
    }
  }

  lemma AnnotateBlockWhole(func: string, varNames: map<int, string>, b: Block)
    requires WholeInsts(b.insts)
    ensures WholeAnnotated(AnnotateBlock(func, varNames, b).0)
  {
    var bbid, n, env := BlockId(b.ref), PhiCount(b.insts), Env(varNames, 0);
    var phis, others := b.insts[..n], b.insts[n..];
    AllPhiLinesWhole(func, bbid, env, phis);
    AnnotateAllWhole(func, bbid, AfterPhis(bbid, env, phis), others);
    WithLinesWhole(AllPhiLines(func, bbid, env, phis), AnnotateAll(func, bbid, AfterPhis(bbid, env, phis), others).0);
  }

  lemma FunctionWhole(f: Func, k: nat)
    requires WholeFunc(f) && k < |f.blocks|
    ensures WholeAnnotated(AnnotateFunction(f)[k])
  {
    assert f.blocks[k] in f.blocks;
    if f.supported && !f.skipBody {
      var names := BlockOf(f.name, map[], f.blocks, k);
      AnnotateBlockWhole(f.name, names, f.blocks[k]);
    }
  }

  lemma {:induction false} BlockLinesWhole(anns: seq<Annotated>)
    requires WholeAnnotated(anns)
    ensures WholeLines(BlockLines(anns))
    decreases anns
  {
    if anns != [] {
      assert anns[0] in anns;
      BlockLinesWhole(anns[1..]);
    }
  }

  lemma {:induction false} BlocksLinesWhole(blocks: seq<seq<Annotated>>)
    requires forall anns <- blocks :: WholeAnnotated(anns)
    ensures WholeLines(BlocksLines(blocks))
    decreases blocks
  {
    if blocks != [] {
      BlockLinesWhole(blocks[0]);
      BlocksLinesWhole(blocks[1..]);
    }
  }

  lemma AllLinesWhole(f: Func)
    requires WholeFunc(f)
    ensures WholeLines(AllLines(f))
  {
    var blocks := AnnotateFunction(f);
    forall k: nat | k < |blocks|
      ensures WholeAnnotated(blocks[k])
    {
      FunctionWhole(f, k);
    }
    BlocksLinesWhole(blocks);
    ParamLinesFromWhole(f, 0);
  }

  /** Whole bytes and no pointers, in all vectors of a function, are enough. */
  lemma WholeBytesApart(f: Func)
    requires WholeFunc(f)
    ensures KeysApart(AllLines(f))
  {
    AllLinesWhole(f);
    forall k, l | k in AllLines(f) && l in AllLines(f)
      ensures !Clash(k, l)
    {
      assert WholeLine(k) && WholeLine(l);
      if ShowsVector(k) && ShowsVector(l) {
        KeysInjective(TypeOf(k.value.operand), TypeOf(l.value.operand));
      }
    }
  }

  // ---------- a clash ----------

  lemma ClashNeverReady(bufs: Buffers, ls: seq<Line>)
    requires !KeysApart(ls)
    ensures !Ready(bufs, ls)
  {
    var k, l :| k in ls && l in ls && Clash(k, l);
    assert !(LineReady(bufs, k) && LineReady(bufs, l));
  }

  lemma UpdatesThenSame<W>(x: Place<W>, fr: Frame, bufs: Buffers, f: Func, rest: seq<Node>, w: W)
    ensures Exec(x, fr, bufs, Nodes(EntryUpdates(f)) + rest, w).status == Exec(x, fr, bufs, rest, w).status
  {
    if f.supported && f.name != "main" && f.tracked {
      var first, second := [CallUpdateStatus(f.name, 0, true)], [CallLogEntry(f.name, |f.params|)];
      assert Nodes(EntryUpdates(f)) + rest == Nodes(first) + (Nodes(second) + rest);
      ExecUpdate(x, fr, bufs, f.name, 0, true, Nodes(second) + rest, w);
      ExecEntry(x, fr, bufs, f.name, |f.params|, rest, w);
    } else {
      assert Nodes(EntryUpdates(f)) + rest == rest;
    }
  }

  /** If two vector parameters of different types share a key, a call of the instrumented function,
      tracked or not, never gets past its entry, whatever its body is. */
  lemma ClashingEntry<W>(m: Machine<W>, p: Program, f: Func, fuel: nat, args: seq<Value>, w: W)
    requires f.blocks != [] && !KeysApart(EntryLines(f))
    requires f.name in p && p[f.name] == Correctness.BodyOf(f) && fuel > 0
    ensures ExecFunction(m, p, fuel, f.name, args, w).status == Stuck
  {
    var x, fr := Place(m, p, fuel - 1, p[f.name], 0), Frame(map[], args);
    var body := BlockNodes(f, AnnotateFunction(f)[0]);
    Correctness.ExecEnter(m, p, fuel, f.name, args, w);
    Correctness.EntryBlock(f);
    AddBuffersProvides([], AllLines(f));
    var bufs := ExecAllocations(x, fr, map[], BuffersOf(f), Nodes(EntryCodes(f)) + body, w);
    ClashNeverReady(bufs, EntryLines(f));
    ExecUnready(x, fr, bufs, EntryLines(f), body, w);
    UpdatesThenSame(x, fr, bufs, f, Nodes(Codes(EntryLines(f))) + body, w);
    NodesAppend(EntryUpdates(f), Codes(EntryLines(f)));
    Associate(Nodes(EntryUpdates(f)), Nodes(Codes(EntryLines(f))), body);
  }

  /** The lines of a block that are logged before control leaves it. */
  function LinesToTerminator(anns: seq<Annotated>): seq<Line>
    decreases anns
  {
    if anns == [] then []
    else if IsTerminator(anns[0].inst) then anns[0].before
    else anns[0].before + (anns[0].after + LinesToTerminator(anns[1..]))
  }

  lemma ReadyBoth(bufs: Buffers, a: seq<Line>, b: seq<Line>)
    ensures Ready(bufs, a + b) <==> Ready(bufs, a) && Ready(bufs, b)
  {
    assert forall l <- a :: l in a + b;
    assert forall l <- b :: l in a + b;
  }

  lemma SameReady(a: Buffers, b: Buffers, ls: seq<Line>)
    requires SameShape(a, b)
    ensures Ready(a, ls) <==> Ready(b, ls)
  {
    if Ready(a, ls) {
      ReadyShape(a, b, ls);
    }
    if Ready(b, ls) {
      ReadyShape(b, a, ls);
    }
  }

  /** A block with a line that has no buffer of its type never gets to leave: its code gets stuck,
      unless a call in front of that line does not come back. */
  lemma {:induction false} UnreadyBlock<W>(x: Place<W>, fr: Frame, bufs: Buffers, f: Func, anns: seq<Annotated>, w: W)
    requires !Ready(bufs, LinesToTerminator(anns))
    ensures !Exec(x, fr, bufs, BlockNodes(f, anns), w).status.Returned?
    decreases |anns|, 1
  {
    var a := anns[0];
    var own := [Original(a.inst)] + (Nodes(Codes(a.after)) + BlockNodes(f, anns[1..]));
    var rest := Nodes(BeforeReturn(f, a)) + own;
    Correctness.SplitInst(f, anns);
    if Ready(bufs, a.before) {
      var bufs' := ExecLines(x, fr, bufs, a.before, rest, w);
      ReadyBoth(bufs, a.before, a.after + LinesToTerminator(anns[1..]));
      SameReady(bufs, bufs', a.after + LinesToTerminator(anns[1..]));
      assert rest == own;
      Correctness.ExecOriginal(x, fr, bufs', a.inst, Nodes(Codes(a.after)) + BlockNodes(f, anns[1..]), w);
      UnreadyInst(x, fr, bufs', f, anns, w);
    } else {
      ExecUnready(x, fr, bufs, a.before, rest, w);
    }
  }

  lemma {:induction false} UnreadyInst<W>(x: Place<W>, fr: Frame, bufs: Buffers, f: Func, anns: seq<Annotated>, w: W)
    requires anns != [] && !IsTerminator(anns[0].inst)
    requires !Ready(bufs, anns[0].after + LinesToTerminator(anns[1..]))
    ensures !ExecInst(x.m, x.p, x.fuel, x.c, x.at, fr, bufs, anns[0].inst,
                      Nodes(Codes(anns[0].after)) + BlockNodes(f, anns[1..]), w).status.Returned?
    decreases |anns|, 0
  {
    var i := anns[0].inst;
    var vals := EvalAll(x.m, fr, i.args);
    if i.kind.Phi? {
      UnreadyAfter(x, fr, bufs, f, anns, w);
    } else if IsCall(i) {
      var r := ExecCall(x.m, x.p, x.fuel, CalleeName(x.m, i, vals, w), vals, w);
      if r.status.Returned? {
        UnreadyAfter(x, Define(fr, i, r.status.value), bufs, f, anns, r.world);
      }
    } else {
      var (v, w') := x.m.compute(i, vals, w);
      UnreadyAfter(x, Define(fr, i, v), bufs, f, anns, w');
    }
  }

  lemma {:induction false} UnreadyAfter<W>(x: Place<W>, fr: Frame, bufs: Buffers, f: Func, anns: seq<Annotated>, w: W)
    requires anns != [] && !Ready(bufs, anns[0].after + LinesToTerminator(anns[1..]))
    ensures !Exec(x, fr, bufs, Nodes(Codes(anns[0].after)) + BlockNodes(f, anns[1..]), w).status.Returned?
    decreases |anns| - 1, 2
  {
    var after, rest := anns[0].after, BlockNodes(f, anns[1..]);
    ReadyBoth(bufs, after, LinesToTerminator(anns[1..]));
    if Ready(bufs, after) {
      var bufs' := ExecLines(x, fr, bufs, after, rest, w);
      SameReady(bufs, bufs', LinesToTerminator(anns[1..]));
      UnreadyBlock(x, fr, bufs', f, anns[1..], w);
    } else {
      ExecUnready(x, fr, bufs, after, rest, w);
    }
  }

  /** If two vector types that are logged in one block share a key, no run of the instrumented
      function that comes to this block, with any buffers, returns. */
  lemma ClashingBlock<W>(x: Place<W>, fr: Frame, bufs: Buffers, f: Func, k: nat, w: W)
    requires k < |f.blocks| && !KeysApart(LinesToTerminator(AnnotateFunction(f)[k]))
    ensures !Exec(x, fr, bufs, BlockNodes(f, AnnotateFunction(f)[k]), w).status.Returned?
  {
    ClashNeverReady(bufs, LinesToTerminator(AnnotateFunction(f)[k]));
    UnreadyBlock(x, fr, bufs, f, AnnotateFunction(f)[k], w);
  }

  const BITS := VecT(8, IntElement(1))
  const NIBBLES := VecT(8, IntElement(4))

  const FIRST := Argument(0, BITS, Some("a"))
  const SECOND := Argument(1, NIBBLES, Some("b"))

  const LEAVE := Inst(0, VoidT, None, -1, 1, 1, [], Ret)

  /** Two parameters, vectors of eight bits and of eight nibbles, both of zero bytes per element. */
  const CLASHING := Func("f", true, false, false, [FIRST, SECOND],
                         [Block(BlockRef(0, Some("entry"), 0, 0), [LEAVE])])

  const CLASHING_PROGRAM: Source := map["f" := CLASHING]

  lemma ClashingLines()
    ensures EntryLines(CLASHING) == [OperandLine(FORWARD_LINE, 8, Of(FIRST), true, "a", None),
                                     OperandLine(FORWARD_LINE, 32, Of(SECOND), true, "b", None)]
    ensures !KeysApart(EntryLines(CLASHING))
  {
    var first := OperandLine(FORWARD_LINE, 8, Of(FIRST), true, "a", None);
    var second := OperandLine(FORWARD_LINE, 32, Of(SECOND), true, "b", None);
    assert ParamLinesFrom(CLASHING, 2) == [];
    assert ParamLinesFrom(CLASHING, 1) == [second] + [];
    assert ParamLinesFrom(CLASHING, 0) == [first] + [second];
    assert Clash(first, second);
    assert first in EntryLines(CLASHING) && second in EntryLines(CLASHING);
  }

  lemma ClashingReturns<W>(m: Machine<W>, fuel: nat, args: seq<Value>, w: W)
    requires fuel > 0
    ensures ExecFunction(m, UntouchedProgram(CLASHING_PROGRAM), fuel, "f", args, w).status == Returned(UNDEF)
  {
    var p := UntouchedProgram(CLASHING_PROGRAM);
    Correctness.ExecEnter(m, p, fuel, "f", args, w);
    assert p["f"].blocks[0] == [Original(LEAVE)] + [];
    Correctness.ExecOriginal(Place(m, p, fuel - 1, p["f"], 0), Frame(map[], args), map[], LEAVE, [], w);
  }

  /** A program that returns, and gets stuck once it is instrumented. */
  lemma VectorsClash<W>(m: Machine<W>, fuel: nat, args: seq<Value>, w: W)
    requires fuel > 0
    ensures ExecFunction(m, UntouchedProgram(CLASHING_PROGRAM), fuel, "f", args, w).status == Returned(UNDEF)
    ensures ExecFunction(m, Correctness.Instrumented(CLASHING_PROGRAM), fuel, "f", args, w).status == Stuck
  {
    ClashingReturns(m, fuel, args, w);
    ClashingLines();
    ClashingEntry(m, Correctness.Instrumented(CLASHING_PROGRAM), CLASHING, fuel, args, w);
  }
}
