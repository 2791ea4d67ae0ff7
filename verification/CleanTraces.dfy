/**
 Which programs have traces that can be read back: if the names and strings of a program hold no
 comma and no newline, then neither does any text in a line that the pass asks to be logged.
 */
module CleanTexts {
  import opened Wrappers
  import opened Numerals
  import opened TraceText
  import opened StaticIds
  import opened Tokens
  import opened Ir
  import opened Annotations

  /** Integers, pointers and vectors are printed in digits; strings and doubles as they are. */
  ghost predicate CleanValue(v: Value) {
    match v
    case StrV(text) => Clean(text)
    case DblV(printed) => Clean(printed)
    case _ => true
  }

  ghost predicate CleanName(name: Option<string>) {
    name.Some? ==> Clean(name.value)
  }

  ghost predicate CleanOperand(o: Operand) {
    && CleanName(NameOf(o))
    && (o.Constant? ==> CleanValue(o.value))
    && (o.StringConstant? ==> CleanValue(o.value) && Clean(o.text))
  }

  ghost predicate CleanInst(i: Inst) {
    && CleanName(i.name) && (forall o <- i.args :: CleanOperand(o))
    && (i.kind.Phi? ==> forall b <- i.kind.preds :: CleanName(b.name))
    && (i.kind.DirectCall? ==> Clean(i.kind.callee))
    && (i.kind.DebugDeclare? ==> Clean(i.kind.variable))
  }

  ghost predicate CleanInsts(insts: seq<Inst>) {
    forall i <- insts :: CleanInst(i)
  }

  ghost predicate CleanBlock(b: Block) {
    CleanName(b.ref.name) && CleanInsts(b.insts)
  }

  ghost predicate CleanFunc(f: Func) {
    && Clean(f.name) && (forall p <- f.params :: CleanOperand(p))
    && (forall b <- f.blocks :: CleanBlock(b))
  }

  ghost predicate CleanNames(varNames: map<int, string>) {
    forall slot <- varNames :: Clean(varNames[slot])
  }

  /** What is printed of a line besides its value. */
  ghost predicate CleanLine(l: Line) {
    match l
    case HeaderLine(_, func, bb, inst, _) => Clean(func) && Clean(bb) && Clean(inst)
    case OperandLine(tag, _, value, _, name, phi) =>
      && tag != 0 && Clean(name) && CleanName(phi)
      && (value.StringText? ==> Clean(value.text)) && (value.Of? ==> CleanOperand(value.operand))
  }

  ghost predicate CleanLines(ls: seq<Line>) {
    forall l <- ls :: CleanLine(l)
  }

  // ---------- numbers and ids ----------

  lemma NumberClean(n: int)
    ensures Clean(IntText(n))
  {
    IntTextChars(n);
  }

  lemma CleanAppend(a: string, b: string)
    ensures Clean(a + b) <==> Clean(a) && Clean(b)
  {
    assert forall c <- a :: c in a + b;
    assert forall c <- b :: c in a + b;
  }

  lemma NatClean(n: nat)
    ensures Clean(NatText(n))
  {
  }

  lemma BlockIdClean(b: BlockRef)
    requires CleanName(b.name)
    ensures Clean(BlockId(b))
  {
    NatClean(b.slot);
    NatClean(b.depth);
    assert Clean(BlockText(b));
    CleanAppend(BlockText(b), ":");
    CleanAppend(BlockText(b) + ":", NatText(b.depth));
    TruncateClean(BlockText(b) + ":" + NatText(b.depth), if b.name.Some? then |b.name.value| + 3 else 6);
  }

  lemma TruncateClean(s: string, n: nat)
    requires Clean(s)
    ensures Clean(Truncate(s, n))
  {
  }

  lemma InstIdClean(varNames: map<int, string>, name: Option<string>, slot: int, bbid: string, instc: nat)
    requires CleanNames(varNames) && CleanName(name) && Clean(bbid)
    ensures Clean(InstId(varNames, name, slot, bbid, instc).0)
  {
    NumberClean(slot);
    NatClean(instc);
    CleanAppend(bbid, "-");
    CleanAppend(bbid + "-", NatText(instc));
  }

  // ---------- operand lines ----------

  lemma ParamLinesClean(tag: int, size: nat, value: Option<Operand>, isReg: bool, name: string, intrinsic: bool,
                        phi: Option<string>)
    requires tag != 0 && Clean(name) && CleanName(phi) && (value.Some? ==> CleanOperand(value.value))
    ensures CleanLines(ParamLines(tag, size, value, isReg, name, intrinsic, phi))
  {
  }

  lemma OperandNameClean(varNames: map<int, string>, o: Operand)
    requires CleanNames(varNames) && CleanOperand(o)
    ensures Clean(OperandName(varNames, o)) && Clean(NameOf(o).GetOr(""))
  {
    if o.Result? {
      InstIdClean(varNames, o.name, o.slot, "", 0);
    } else if o.BlockOperand? {
      BlockIdClean(o.block);
    }
  }

  lemma OperandClean(varNames: map<int, string>, index: nat, o: Operand, intrinsic: bool)
    requires CleanNames(varNames) && CleanOperand(o)
    ensures CleanLines(OperandLines(varNames, index, o, intrinsic))
  {
    OperandNameClean(varNames, o);
    ParamLinesClean(index + 1, MemSize(TypeOf(o)), if o.BlockOperand? || o.FunctionOperand? then None else Some(o),
                    OperandIsReg(o), OperandName(varNames, o), intrinsic, None);
  }

  lemma PhiOperandClean(varNames: map<int, string>, index: nat, o: Operand, pred: BlockRef)
    requires CleanNames(varNames) && CleanOperand(o) && CleanName(pred.name)
    ensures CleanLines(PhiOperandLines(varNames, index, o, pred))
  {
    OperandNameClean(varNames, o);
    BlockIdClean(pred);
    ParamLinesClean(index + 1, MemSize(TypeOf(o)), if o.Result? then None else Some(o), o.Result? || NameOf(o).Some?,
                    if o.Result? then OperandName(varNames, o) else NameOf(o).GetOr(""), false, Some(BlockId(pred)));
  }

  lemma Together(a: seq<Line>, b: seq<Line>, all: seq<Line>)
    requires CleanLines(a) && CleanLines(b) && all == a + b
    ensures CleanLines(all)
  {
    assert forall l <- all :: l in a || l in b;
  }

  lemma {:induction false} LinesDownClean(varNames: map<int, string>, i: Inst, n: nat)
    requires CleanNames(varNames) && CleanInst(i) && n <= |i.args|
    ensures CleanLines(LinesDown(varNames, i, n))
  {
    if n > 0 {
      LinesDownClean(varNames, i, n - 1);
      assert i.args[n - 1] in i.args;
      OperandClean(varNames, n - 1, i.args[n - 1], false);
      Together(OperandLines(varNames, n - 1, i.args[n - 1], false), LinesDown(varNames, i, n - 1),
               LinesDown(varNames, i, n));
    }
  }

  lemma {:induction false} PhiLinesDownClean(varNames: map<int, string>, i: Inst, n: nat)
    requires CleanNames(varNames) && CleanInst(i) && i.kind.Phi? && n <= |i.args| && n <= |i.kind.preds|
    ensures CleanLines(PhiLinesDown(varNames, i, n))
  {
    if n > 0 {
      PhiLinesDownClean(varNames, i, n - 1);
      assert i.args[n - 1] in i.args && i.kind.preds[n - 1] in i.kind.preds;
      PhiOperandClean(varNames, n - 1, i.args[n - 1], i.kind.preds[n - 1]);
      Together(PhiOperandLines(varNames, n - 1, i.args[n - 1], i.kind.preds[n - 1]),
               PhiLinesDown(varNames, i, n - 1), PhiLinesDown(varNames, i, n));
    }
  }

  lemma {:induction false} ArgumentLinesClean(varNames: map<int, string>, i: Inst, k: nat)
    requires CleanNames(varNames) && CleanInst(i) && i.kind.DirectCall?
    ensures CleanLines(ArgumentLines(varNames, i, k))
    decreases |i.args| - k
  {
    if k < |i.args| && k < i.kind.formals {
      ArgumentLinesClean(varNames, i, k + 1);
      assert i.args[k] in i.args;
      OperandClean(varNames, k, i.args[k], i.kind.intrinsic);
      Together(OperandLines(varNames, k, i.args[k], i.kind.intrinsic), ArgumentLines(varNames, i, k + 1),
               ArgumentLines(varNames, i, k));
    }
  }

  lemma AllOperandLinesClean(varNames: map<int, string>, i: Inst)
    requires CleanNames(varNames) && CleanInst(i)
    ensures CleanLines(AllOperandLines(varNames, i))
  {
    if i.kind.DirectCall? {
      ParamLinesClean(|i.args| + 1, 64, Some(FunctionOperand(i.kind.callee)), true, i.kind.callee, i.kind.intrinsic,
                      None);
      ArgumentLinesClean(varNames, i, 0);
      Together(CalleeLines(i), ArgumentLines(varNames, i, 0), AllOperandLines(varNames, i));
    } else {
      LinesDownClean(varNames, i, |i.args|);
    }
  }

  lemma ResultLinesClean(i: Inst, id: string)
    requires CleanInst(i) && Clean(id)
    ensures CleanLines(ResultLines(i, id))
  {
    ParamLinesClean(RESULT_LINE, MemSize(i.ty), Some(Result(i.id, i.ty, i.name, i.slot)), true, id, false, None);
  }

  // ---------- instructions, blocks, functions ----------

  ghost predicate CleanAnnotated(a: Annotated) {
    CleanLines(a.before) && CleanInst(a.inst) && CleanLines(a.after)
  }

  ghost predicate CleanAnns(anns: seq<Annotated>) {
    forall a <- anns :: CleanAnnotated(a)
  }

  lemma {:induction false} DeclaredClean(slot: int, later: seq<Inst>)
    requires CleanInsts(later)
    ensures CleanName(DeclaredName(slot, later))
    decreases later
  {
    if later != [] {
      assert later[0] in later;
      DeclaredClean(slot, later[1..]);
    }
  }

  lemma AfterResultClean(varNames: map<int, string>, i: Inst, later: seq<Inst>)
    requires CleanNames(varNames) && CleanInst(i) && CleanInsts(later)
    ensures CleanNames(AfterResult(varNames, i, later))
    ensures Renames(varNames, i) ==> Clean(NameOf(i.args[0]).value)
  {
    DeclaredClean(i.slot, later);
    if Renames(varNames, i) {
      assert CleanOperand(i.args[0]);
    }
  }

  lemma HeaderFirst(header: Line, rest: seq<Line>)
    requires CleanLine(header) && CleanLines(rest)
    ensures CleanLines([header] + rest)
  {
  }

  lemma AnnotateClean(func: string, bbid: string, env: Env, i: Inst, later: seq<Inst>)
    requires Clean(func) && Clean(bbid) && CleanNames(env.varNames) && CleanInst(i) && CleanInsts(later)
    ensures var (a, next) := Annotate(func, bbid, env, i, later);
            CleanAnnotated(a) && CleanNames(next.varNames)
  {
    var id := InstId(env.varNames, i.name, i.slot, bbid, env.instc).0;
    InstIdClean(env.varNames, i.name, i.slot, bbid, env.instc);
    AfterResultClean(env.varNames, i, later);
    AllOperandLinesClean(env.varNames, i);
    HeaderFirst(HeaderLine(i.line, func, bbid, id, ShownOpcode(i)), AllOperandLines(env.varNames, i));
    ResultLinesClean(i, if Renames(env.varNames, i) then NameOf(i.args[0]).value else id);
  }

  lemma {:induction false} AnnotateAllClean(func: string, bbid: string, env: Env, insts: seq<Inst>)
    requires Clean(func) && Clean(bbid) && CleanNames(env.varNames) && CleanInsts(insts)
    ensures var (anns, last) := AnnotateAll(func, bbid, env, insts);
            CleanAnns(anns) && CleanNames(last.varNames)
    decreases insts
  {
    if insts != [] {
      assert insts[0] in insts;
      AnnotateClean(func, bbid, env, insts[0], insts[1..]);
      AnnotateAllClean(func, bbid, Annotate(func, bbid, env, insts[0], insts[1..]).1, insts[1..]);
    }
  }

  lemma PhiLinesClean(func: string, bbid: string, env: Env, i: Inst)
    requires i.kind.Phi? && Clean(func) && Clean(bbid) && CleanNames(env.varNames) && CleanInst(i)
    ensures CleanLines(PhiLines(func, bbid, env, i))
  {
    var id := InstId(env.varNames, i.name, i.slot, bbid, env.instc).0;
    var n := if |i.args| <= |i.kind.preds| then |i.args| else |i.kind.preds|;
    InstIdClean(env.varNames, i.name, i.slot, bbid, env.instc);
    PhiLinesDownClean(env.varNames, i, n);
    HeaderFirst(HeaderLine(i.line, func, bbid, id, ShownOpcode(i)), PhiLinesDown(env.varNames, i, n));
    ResultLinesClean(i, id);
  }

  lemma {:induction false} AllPhiLinesClean(func: string, bbid: string, env: Env, phis: seq<Inst>)
    requires (forall i <- phis :: i.kind.Phi?) && CleanInsts(phis)
    requires Clean(func) && Clean(bbid) && CleanNames(env.varNames)
    ensures CleanLines(AllPhiLines(func, bbid, env, phis))
    decreases phis
  {
    if phis != [] {
      assert phis[0] in phis;
      PhiLinesClean(func, bbid, env, phis[0]);
      AllPhiLinesClean(func, bbid, AfterPhi(bbid, env, phis[0]), phis[1..]);
    }
  }

  lemma {:induction false} PhisKeepNames(bbid: string, env: Env, phis: seq<Inst>)
    ensures AfterPhis(bbid, env, phis).varNames == env.varNames
    decreases phis
  {
    if phis != [] {
      PhisKeepNames(bbid, AfterPhi(bbid, env, phis[0]), phis[1..]);
    }
  }

  lemma BlockTogether(phis: seq<Annotated>, lines: seq<Line>, anns: seq<Annotated>)
    requires forall a <- phis :: a.before == [] && a.after == [] && CleanInst(a.inst)
    requires CleanLines(lines) && CleanAnns(anns)
    ensures CleanAnns(phis + WithLines(lines, anns))
  {
    forall a | a in WithLines(lines, anns)
      ensures CleanAnnotated(a)
    {
      assert CleanAnnotated(anns[0]);
      assert a == WithLines(lines, anns)[0] || a in anns[1..];
    }
  }

  lemma AnnotateBlockClean(func: string, varNames: map<int, string>, b: Block)
    requires Clean(func) && CleanNames(varNames) && CleanBlock(b)
    ensures var (anns, names) := AnnotateBlock(func, varNames, b);
            CleanAnns(anns) && CleanNames(names)
  {
    var bbid, n, env := BlockId(b.ref), PhiCount(b.insts), Env(varNames, 0);
    var phis, others := b.insts[..n], b.insts[n..];
    BlockIdClean(b.ref);
    PhisKeepNames(bbid, env, phis);
    AllPhiLinesClean(func, bbid, env, phis);
    AnnotateAllClean(func, bbid, AfterPhis(bbid, env, phis), others);
    BlockTogether(PhiAnnotations(bbid, env, phis), AllPhiLines(func, bbid, env, phis),
                  AnnotateAll(func, bbid, AfterPhis(bbid, env, phis), others).0);
  }

  /** All lines of a clean function are clean. */
  lemma FunctionClean(f: Func, k: nat)
    requires CleanFunc(f) && k < |f.blocks|
    ensures CleanAnns(AnnotateFunction(f)[k])
  {
    assert f.blocks[k] in f.blocks;
    if f.supported && !f.skipBody {
      var step, good := BlockStep(f.name), varNames => CleanNames(varNames);
      forall names: map<int, string>, i: nat | good(names) && i < |f.blocks|
        ensures good(step(names, f.blocks[i]).1)
      {
        assert f.blocks[i] in f.blocks;
        AnnotateBlockClean(f.name, names, f.blocks[i]);
      }
      var names := AccumulateAt(step, map[], f.blocks, k, good);
      AnnotateBlockClean(f.name, names, f.blocks[k]);
    } else {
      BareClean(f.blocks[k].insts);
    }
  }

  lemma BareClean(insts: seq<Inst>)
    requires CleanInsts(insts)
    ensures CleanAnns(Bare(insts))
  {
  }

  lemma EntryClean(f: Func)
    requires CleanFunc(f)
    ensures CleanLines(EntryLines(f))
  {
    ParametersClean(f, 0);
  }

  lemma {:induction false} ParametersClean(f: Func, k: nat)
    requires CleanFunc(f)
    ensures CleanLines(ParamLinesFrom(f, k))
    decreases |f.params| - k
  {
    if k < |f.params| {
      var p := f.params[k];
      assert p in f.params;
      ParametersClean(f, k + 1);
      ParamLinesClean(if f.tracked then k + 1 else FORWARD_LINE, MemSize(TypeOf(p)), Some(p), NameOf(p).Some?,
                      NameOf(p).GetOr(""), false, None);
    }
  }
}

/**
 Running such a program: as long as the machine makes no text with a comma or a newline out of
 texts without, every record of the intended trace can be read back.
 */
module CleanTraces {
  import opened Wrappers
  import opened TraceText
  import opened TraceFile
  import opened Tokens
  import opened Logger
  import opened Runs
  import opened Ir
  import opened Annotations
  import opened Semantics
  import Correctness
  import opened EndToEnd
  import opened CleanTexts

  ghost predicate CleanValues(vals: seq<Value>) {
    forall v <- vals :: CleanValue(v)
  }

  ghost predicate CleanMachine<W(!new)>(m: Machine<W>) {
    && (forall i: Inst, vals: seq<Value>, w: W :: CleanValues(vals) ==> CleanValue(m.compute(i, vals, w).0))
    && (forall f: string, vals: seq<Value>, w: W :: CleanValues(vals) ==> CleanValue(m.external(f, vals, w).0))
  }

  ghost predicate CleanSource(s: Source) {
    forall n <- s :: CleanFunc(s[n])
  }

  ghost predicate CleanFrame(fr: Frame) {
    (forall r <- fr.regs :: CleanValue(fr.regs[r])) && CleanValues(fr.args)
  }

  // ---------- tokens ----------

  lemma {:induction false} HexNatClean(n: nat)
    ensures Clean(HexNat(n))
  {
    if n >= 16 {
      HexNatClean(n / 16);
    }
  }

  lemma {:induction false} HexBytesClean(bytes: seq<Byte>)
    ensures Clean(HexBytes(bytes))
  {
    if bytes != [] {
      HexBytesClean(bytes[1..]);
      CleanAppend([HexDigit(bytes[0] / 16), HexDigit(bytes[0] % 16)], HexBytes(bytes[1..]));
    }
  }

  lemma TokenClean(t: Type, v: Value)
    requires CleanValue(v)
    ensures Clean(Token(v)) && Clean(ValueToken(t, v))
  {
    match v
    case IntV(n) =>
      NumberClean(n);
      if t.IntT? {
        NumberClean(Semantics.Extended(t.width, n));
      }
    case PtrV(a) =>
      HexNatClean(a);
      CleanAppend("0x", HexNat(a));
    case VecV(bytes) =>
      HexBytesClean(bytes);
      HexBytesClean(FirstBytes(bytes, MemSize(t) / 8));
      CleanAppend("0x", HexBytes(bytes));
      CleanAppend("0x", HexBytes(FirstBytes(bytes, MemSize(t) / 8)));
    case _ =>
  }

  lemma EvalClean<W>(m: Machine<W>, fr: Frame, o: Operand)
    requires CleanFrame(fr) && CleanOperand(o)
    ensures CleanValue(Eval(m, fr, o))
  {
  }

  lemma EvalAllClean<W>(m: Machine<W>, fr: Frame, os: seq<Operand>)
    requires CleanFrame(fr) && forall o <- os :: CleanOperand(o)
    ensures CleanValues(EvalAll(m, fr, os))
  {
    forall k | 0 <= k < |os|
      ensures CleanValue(EvalAll(m, fr, os)[k])
    {
      assert os[k] in os;
      EvalClean(m, fr, os[k]);
    }
  }

  lemma DefineClean(fr: Frame, i: Inst, v: Value)
    requires CleanFrame(fr) && CleanValue(v)
    ensures CleanFrame(Define(fr, i, v))
  {
  }

  lemma {:induction false} PhiValueClean<W>(m: Machine<W>, fr: Frame, i: Inst, from: nat, k: nat)
    requires CleanFrame(fr) && CleanInst(i) && i.kind.Phi?
    ensures CleanValue(PhiValue(m, fr, i, from, k))
    decreases |i.args| - k
  {
    if k < |i.args| && k < |i.kind.preds| {
      assert i.args[k] in i.args;
      EvalClean(m, fr, i.args[k]);
      PhiValueClean(m, fr, i, from, k + 1);
    }
  }

  lemma {:induction false} PhiRegistersClean<W>(m: Machine<W>, fr: Frame, phis: seq<Inst>, from: nat)
    requires CleanFrame(fr) && (forall i <- phis :: i.kind.Phi? && CleanInst(i))
    ensures CleanFrame(fr.(regs := PhiRegisters(m, fr, phis, from)))
    decreases phis
  {
    if phis != [] {
      var last := phis[|phis| - 1];
      assert last in phis;
      PhiRegistersClean(m, fr, phis[..|phis| - 1], from);
      PhiValueClean(m, fr, last, from, 0);
    }
  }

  lemma {:induction false} PhisOfClean(anns: seq<Annotated>)
    requires CleanAnns(anns)
    ensures forall i <- PhisOf(anns) :: CleanInst(i)
    decreases anns
  {
    if anns != [] {
      assert CleanAnnotated(anns[0]);
      PhisOfClean(anns[1..]);
    }
  }

  // ---------- the items of a trace ----------

  ghost predicate CleanCall(c: Call) {
    c.Log0? || c.LogParam? ==> Printable(RecordOf(c, 0))
  }

  ghost predicate CleanItem(i: Item)
    decreases i
  {
    match i
    case Emit(c) => CleanCall(c)
    case Rename(_) => true
    case Activation(f, _, _, items) => Clean(f) && CleanItems(items)
  }

  ghost predicate CleanItems(items: seq<Item>)
    decreases items
  {
    items != [] ==> CleanItem(items[0]) && CleanItems(items[1..])
  }

  lemma {:induction false} CleanItemsAppend(a: seq<Item>, b: seq<Item>)
    ensures CleanItems(a + b) <==> CleanItems(a) && CleanItems(b)
    decreases a
  {
    if a == [] {
      assert a + b == b;
    } else {
      assert (a + b)[1..] == a[1..] + b;
      CleanItemsAppend(a[1..], b);
    }
  }

  lemma LineCallClean<W>(m: Machine<W>, fr: Frame, l: Line)
    requires CleanFrame(fr) && CleanLine(l)
    ensures CleanCall(LineCall(m, fr, l))
  {
    if l.OperandLine? {
      NumberClean(0);
      if l.value.Of? {
        EvalClean(m, fr, l.value.operand);
        TokenClean(TypeOf(l.value.operand), Eval(m, fr, l.value.operand));
      }
      TokenClean(PtrT, PtrV(0));
      assert Clean(ShownToken(m, fr, l.value));
    }
  }

  lemma {:induction false} EmitsClean<W>(m: Machine<W>, fr: Frame, ls: seq<Line>)
    requires CleanFrame(fr) && CleanLines(ls)
    ensures CleanItems(Emits(m, fr, ls))
    decreases ls
  {
    if ls != [] {
      assert ls[0] in ls;
      LineCallClean(m, fr, ls[0]);
      EmitsClean(m, fr, ls[1..]);
      assert Emits(m, fr, ls)[1..] == Emits(m, fr, ls[1..]);
    }
  }

  /** Nothing unclean is logged, and nothing unclean comes back. */
  ghost predicate CleanTrace<W>(t: Trace<W>) {
    CleanItems(t.items) && (t.status.Returned? ==> CleanValue(t.status.value))
  }

  lemma LinesThenClean<W>(m: Machine<W>, fr: Frame, ls: seq<Line>, t: Trace<W>)
    requires CleanFrame(fr) && CleanLines(ls) && CleanTrace(t)
    ensures CleanTrace(PrefixedT(Emits(m, fr, ls), t))
  {
    EmitsClean(m, fr, ls);
    CleanItemsAppend(Emits(m, fr, ls), t.items);
  }

  lemma {:induction false} BlockClean<W(!new)>(m: Machine<W>, s: Source, fuel: nat, f: Func, at: nat, fr: Frame,
                                               anns: seq<Annotated>, w: W)
    requires CleanMachine(m) && CleanSource(s) && CleanFunc(f) && CleanFrame(fr) && CleanAnns(anns)
    ensures CleanTrace(TraceBlock(m, s, fuel, f, at, fr, anns, w))
    decreases fuel, 2 + |anns|, 0
  {
    if anns != [] {
      var a := anns[0];
      assert CleanAnnotated(a);
      InstClean(m, s, fuel, f, at, fr, a.inst, a.after, anns[1..], w);
      LinesThenClean(m, fr, a.before, TraceInst(m, s, fuel, f, at, fr, a.inst, a.after, anns[1..], w));
    }
  }

  lemma {:induction false} InstClean<W(!new)>(m: Machine<W>, s: Source, fuel: nat, f: Func, at: nat, fr: Frame, i: Inst,
                                              after: seq<Line>, rest: seq<Annotated>, w: W)
    requires CleanMachine(m) && CleanSource(s) && CleanFunc(f) && CleanFrame(fr)
    requires CleanInst(i) && CleanLines(after) && CleanAnns(rest)
    ensures CleanTrace(TraceInst(m, s, fuel, f, at, fr, i, after, rest, w))
    decreases fuel, 2 + |rest|, 3
  {
    var vals := EvalAll(m, fr, i.args);
    EvalAllClean(m, fr, i.args);
    if i.kind.Branch? {
      BranchClean(m, s, fuel, f, at, fr, i.kind.targets, m.branch(i, vals, w), w);
    } else if IsCall(i) {
      CalledClean(m, s, fuel, f, at, fr, i, CalleeName(m, i, vals, w), vals, after, rest, w);
    } else if i.kind.Phi? {
      AfterClean(m, s, fuel, f, at, fr, after, rest, w);
    } else if !i.kind.Ret? && !i.kind.Invoke? {
      var (v, w') := m.compute(i, vals, w);
      DefineClean(fr, i, v);
      AfterClean(m, s, fuel, f, at, Define(fr, i, v), after, rest, w');
    }
  }

  lemma {:induction false} AfterClean<W(!new)>(m: Machine<W>, s: Source, fuel: nat, f: Func, at: nat, fr: Frame,
                                               after: seq<Line>, rest: seq<Annotated>, w: W)
    requires CleanMachine(m) && CleanSource(s) && CleanFunc(f) && CleanFrame(fr) && CleanLines(after) && CleanAnns(rest)
    ensures CleanTrace(TraceAfter(m, s, fuel, f, at, fr, after, rest, w))
    decreases fuel, 2 + |rest|, 1
  {
    BlockClean(m, s, fuel, f, at, fr, rest, w);
    LinesThenClean(m, fr, after, TraceBlock(m, s, fuel, f, at, fr, rest, w));
  }

  lemma {:induction false} CalledClean<W(!new)>(m: Machine<W>, s: Source, fuel: nat, f: Func, at: nat, fr: Frame,
                                                i: Inst, callee: string, vals: seq<Value>, after: seq<Line>,
                                                rest: seq<Annotated>, w: W)
    requires CleanMachine(m) && CleanSource(s) && CleanFunc(f) && CleanFrame(fr)
    requires CleanValues(vals) && CleanLines(after) && CleanAnns(rest)
    ensures CleanTrace(TraceCalled(m, s, fuel, f, at, fr, i, callee, vals, after, rest, w))
    decreases fuel, 2 + |rest|, 2
  {
    CallClean(m, s, fuel, callee, vals, w);
    var r := TraceCall(m, s, fuel, callee, vals, w);
    if r.status.Returned? {
      var fr' := Define(fr, i, r.status.value);
      DefineClean(fr, i, r.status.value);
      AfterClean(m, s, fuel, f, at, fr', after, rest, r.world);
      CleanItemsAppend(r.items, TraceAfter(m, s, fuel, f, at, fr', after, rest, r.world).items);
    }
  }

  lemma {:induction false} BranchClean<W(!new)>(m: Machine<W>, s: Source, fuel: nat, f: Func, at: nat, fr: Frame,
                                                targets: seq<nat>, t: nat, w: W)
    requires CleanMachine(m) && CleanSource(s) && CleanFunc(f) && CleanFrame(fr)
    ensures CleanTrace(TraceBranch(m, s, fuel, f, at, fr, targets, t, w))
    decreases fuel, 0, 1
  {
    if t < |targets| && targets[t] < |f.blocks| && fuel > 0 {
      var next := AnnotateFunction(f)[targets[t]];
      FunctionClean(f, targets[t]);
      PhisOfClean(next);
      PhiRegistersClean(m, fr, PhisOf(next), at);
      BlockClean(m, s, fuel - 1, f, targets[t], fr.(regs := PhiRegisters(m, fr, PhisOf(next), at)), next, w);
    }
  }

  lemma {:induction false} CallClean<W(!new)>(m: Machine<W>, s: Source, fuel: nat, callee: string, args: seq<Value>,
                                              w: W)
    requires CleanMachine(m) && CleanSource(s) && CleanValues(args)
    ensures CleanTrace(TraceCall(m, s, fuel, callee, args, w))
    decreases fuel, 1, 0
  {
    if callee == SET_TRACE_NAME {
      assert [Rename(m.sessionName(args, w))][1..] == [];
      assert CleanItem(Rename(m.sessionName(args, w)));
    } else if callee in s {
      ActivationClean(m, s, fuel, callee, args, w);
    }
  }

  /** The trace of a call with clean arguments is clean. */
  lemma {:induction false} ActivationClean<W(!new)>(m: Machine<W>, s: Source, fuel: nat, name: string, args: seq<Value>,
                                                    w: W)
    requires CleanMachine(m) && CleanSource(s) && CleanValues(args) && name in s
    ensures CleanTrace(TraceFunction(m, s, fuel, name, args, w))
    decreases fuel, 0, 0
  {
    var f := s[name];
    if fuel > 0 && f.blocks != [] {
      var fr := Frame(map[], args);
      FunctionClean(f, 0);
      EntryClean(f);
      BlockClean(m, s, fuel - 1, f, 0, fr, AnnotateFunction(f)[0], w);
      var r := TraceBlock(m, s, fuel - 1, f, 0, fr, AnnotateFunction(f)[0], w);
      LinesThenClean(m, fr, EntryLines(f), r);
      var i := Activation(f.name, KindOf(f), |f.params|, Emits(m, fr, EntryLines(f)) + r.items);
      assert CleanItem(i) && [i][1..] == [];
    }
  }

  // ---------- from items to records ----------

  lemma {:induction false} ItemRecordsClean(i: Item, k: nat)
    requires WellFormedItem(i) && CleanItem(i)
    ensures AllPrintable(ItemRecords(i, k))
    decreases i
  {
    match i
    case Emit(_) =>
    case Rename(_) =>
    case Activation(_, _, _, items) => RecordsClean(items, k);
  }

  lemma {:induction false} RecordsClean(items: seq<Item>, k: nat)
    requires WellFormed(items) && CleanItems(items)
    ensures AllPrintable(Records(items, k))
    decreases items
  {
    if items != [] {
      ItemRecordsClean(items[0], k);
      RecordsClean(items[1..], k + ItemHeaders(items[0]));
    }
  }

  ghost predicate PrintableSessions(ss: seq<Session>) {
    forall x <- ss :: AllPrintable(x.records)
  }

  lemma {:induction false} ItemSessionsClean(i: Item, name: Option<string>)
    requires WellFormedItem(i) && CleanItem(i)
    ensures PrintableSessions(ItemSessions(i, name))
    decreases i
  {
    if i.Activation? {
      RecordsClean(i.items, 0);
      SessionsClean(i.items, name);
    }
  }

  lemma {:induction false} SessionsClean(items: seq<Item>, name: Option<string>)
    requires WellFormed(items) && CleanItems(items)
    ensures PrintableSessions(Sessions(items, name))
    decreases items
  {
    if items != [] {
      ItemSessionsClean(items[0], name);
      SessionsClean(items[1..], ItemPending(items[0], name));
    }
  }

  lemma {:induction false} RecordsInClean(ss: seq<Session>, file: string)
    requires PrintableSessions(ss)
    ensures AllPrintable(RecordsIn(ss, file))
    decreases ss
  {
    if ss != [] {
      assert ss[0] in ss;
      RecordsInClean(ss[1..], file);
    }
  }

  /**
   The trace files of a program whose names and strings hold no comma and no newline, called with
   arguments that hold none on a machine that makes none, decode to the records of their sessions.
   */
  lemma ReadBackClean<W(!new)>(m: Machine<W>, s: Source, j: Job<W>, labelMap: string, file: string)
    requires Correctness.GoodSource(s) && CleanMachine(m) && CleanSource(s) && j.name in s && CleanValues(j.args)
    requires WellFormed(Intended(m, s, j)) && !Nested(Intended(m, s, j))
    ensures var log := Run(labelMap, StartState(j.start), CallsIn(Instrumentation(m, s, j).events));
            var sessions := IntendedSessions(m, s, j);
            && log.Ok? && (file in log.value.files <==> HasSession(sessions, file))
            && (file in log.value.files ==>
                  && |log.value.files[file]| >= 3
                  && Decode(Concat(log.value.files[file][3..])) == Some(RecordsIn(sessions, file))
                  && (ReadFile(Concat(log.value.files[file])) == Some(File(labelMap, RecordsIn(sessions, file)))
                      <==> !Holds(labelMap, MAP_END)))
  {
    ActivationClean(m, s, j.fuel, j.name, j.args, j.world);
    SessionsClean(Intended(m, s, j), j.start);
    RecordsInClean(IntendedSessions(m, s, j), file);
    ReadBack(m, s, j, labelMap, file);
  }
}
