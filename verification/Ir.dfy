/**
 The part of LLVM IR that the instrumentation pass looks at. Names, slots, line numbers, loop
 depths, printed opcodes and the lists of traced functions are inputs here.
 */
module Ir {
  import opened Wrappers
  import opened StaticIds
  import opened Tokens

  datatype FloatKind = Half | Float | Double | X86Fp80 | Fp128 | PpcFp128

  function FloatBits(k: FloatKind): nat {
    match k
    case Half => 16
    case Float => 32
    case Double => 64
    case X86Fp80 => 80
    case Fp128 => 128
    case PpcFp128 => 128
  }

  /** The element of a vector; `pointee` tells pointer types apart. */
  datatype Element = IntElement(width: nat) | FloatElement(kind: FloatKind) | PtrElement(pointee: nat)

  datatype Type =
    | VoidT
    | IntT(width: nat)
    | FloatT(kind: FloatKind)
    | PtrT
    | VecT(count: nat, element: Element)
    | LabelT
    | OtherT(size: nat)

  function ElementBits(e: Element): nat {
    match e
    case IntElement(w) => w
    case FloatElement(k) => FloatBits(k)
    case PtrElement(_) => 0
  }

  /** getMemSize, in bits. */
  function MemSize(t: Type): nat {
    match t
    case VoidT => 0
    case IntT(w) => w
    case FloatT(k) => FloatBits(k)
    case PtrT => 64
    case VecT(n, e) => n * ElementBits(e)
    case LabelT => 0
    case OtherT(size) => size
  }

  datatype Operand =
    | Result(id: nat, ty: Type, name: Option<string>, slot: int)
    | Argument(index: nat, ty: Type, name: Option<string>)
    | Constant(value: Value, ty: Type, name: Option<string>)
    | StringConstant(value: Value, text: string, name: Option<string>)
    | FunctionOperand(func: string)
    | BlockOperand(block: BlockRef)

  function TypeOf(o: Operand): Type {
    match o
    case Result(_, t, _, _) => t
    case Argument(_, t, _) => t
    case Constant(_, t, _) => t
    case StringConstant(_, _, _) => PtrT
    case FunctionOperand(_) => PtrT
    case BlockOperand(_) => LabelT
  }

  /** getValueName: the IR name, else the name in the debug info. */
  function NameOf(o: Operand): Option<string> {
    match o
    case Result(_, _, n, _) => n
    case Argument(_, _, n) => n
    case Constant(_, _, n) => n
    case StringConstant(_, _, n) => n
    case FunctionOperand(f) => Some(f)
    case BlockOperand(b) => b.name
  }

  /** `listed`: the callee is one of the intrinsics or special functions the trace shows. A debug
      declaration gives the variable at an address a name; an undefined address has no slot. */
  datatype Kind =
    | Phi(preds: seq<BlockRef>)
    | DirectCall(callee: string, formals: nat, intrinsic: bool, listed: bool)
    | IndirectCall
    | Invoke
    | DebugDeclare(address: Option<int>, variable: string)
    | Alloca
    | Bitcast
    | Ret
    | Branch(targets: seq<nat>)
    | Plain

  /** `slot` is the local slot, or -1. `opcode` is LLVM's, converted where fixed point is asked for. */
  datatype Inst = Inst(id: nat, ty: Type, name: Option<string>, slot: int, line: int, opcode: int,
                       args: seq<Operand>, kind: Kind)

  datatype Block = Block(ref: BlockRef, insts: seq<Inst>)

  /** `supported`: a function with C linkage. `skipBody`: one of the DMA, host memory and
      sampling functions, whose blocks the pass leaves alone. */
  datatype Func = Func(name: string, supported: bool, tracked: bool, skipBody: bool,
                       params: seq<Operand>, blocks: seq<Block>)

  /** Calls of listed functions are traced, and calls of other functions that are no intrinsics. */
  predicate Traced(i: Inst) {
    match i.kind
    case DirectCall(_, _, intrinsic, listed) => listed || !intrinsic
    case DebugDeclare(_, _) => false
    case IndirectCall => false
    case Invoke => false
    case _ => true
  }

  // ---------- opcodes of calls ----------

  const SET_READY_BITS := 95
  const DMA_FENCE := 97
  const DMA_STORE := 98
  const DMA_LOAD := 99
  const SPECIAL_MATH_OP := 102
  const INTRINSIC := 104
  const SET_SAMPLING_FACTOR := 105
  const HOST_STORE := 106
  const HOST_LOAD := 107

  /** isSpecialMathOp. */
  predicate IsSpecialMathOp(func: string) {
    func in {"acos", "asin", "atan", "atan2", "cos", "cosh", "sin", "sinh", "tanh", "exp", "frexp", "ldexp", "log",
             "log10", "modf", "pow", "sqrt", "ceil", "fabs", "floor", "fmod"}
  }

  /** What the header of a call shows for the function called. */
  function CallOpcode(callee: string, intrinsic: bool, opcode: int): int {
    if callee == "dmaLoad" then DMA_LOAD
    else if callee == "dmaStore" then DMA_STORE
    else if callee == "dmaFence" then DMA_FENCE
    else if callee == "setReadyBits" then SET_READY_BITS
    else if IsSpecialMathOp(callee) then SPECIAL_MATH_OP
    else if callee == "setSamplingFactor" then SET_SAMPLING_FACTOR
    else if callee == "hostLoad" then HOST_LOAD
    else if callee == "hostStore" then HOST_STORE
    else if intrinsic then INTRINSIC
    else opcode
  }

  /** The opcode in the header line of an instruction. */
  function ShownOpcode(i: Inst): int {
    if i.kind.DirectCall? then CallOpcode(i.kind.callee, i.kind.intrinsic, i.opcode) else i.opcode
  }

  const SPECIAL_CODES := {95, 97, 98, 99, 102, 104, 105, 106, 107}

  /** A code of one of the functions known by name is shown for calls of that function only, the
      code of math for the listed functions only, and that of intrinsics for all other intrinsics;
      LLVM's own opcodes are none of these codes. */
  lemma CodesTellCallees(i: Inst)
    requires i.opcode !in SPECIAL_CODES
    ensures ShownOpcode(i) == 99 <==> i.kind.DirectCall? && i.kind.callee == "dmaLoad"
    ensures ShownOpcode(i) == 98 <==> i.kind.DirectCall? && i.kind.callee == "dmaStore"
    ensures ShownOpcode(i) == 97 <==> i.kind.DirectCall? && i.kind.callee == "dmaFence"
    ensures ShownOpcode(i) == 95 <==> i.kind.DirectCall? && i.kind.callee == "setReadyBits"
    ensures ShownOpcode(i) == 102 <==> i.kind.DirectCall? && IsSpecialMathOp(i.kind.callee)
    ensures ShownOpcode(i) == 105 <==> i.kind.DirectCall? && i.kind.callee == "setSamplingFactor"
    ensures ShownOpcode(i) == 107 <==> i.kind.DirectCall? && i.kind.callee == "hostLoad"
    ensures ShownOpcode(i) == 106 <==> i.kind.DirectCall? && i.kind.callee == "hostStore"
    ensures ShownOpcode(i) == 104 <==>
              && i.kind.DirectCall? && i.kind.intrinsic && !IsSpecialMathOp(i.kind.callee)
              && i.kind.callee !in {"dmaLoad", "dmaStore", "dmaFence", "setReadyBits", "setSamplingFactor", "hostLoad",
                                    "hostStore"}
    ensures ShownOpcode(i) !in SPECIAL_CODES ==> ShownOpcode(i) == i.opcode
  {
  }

  predicate IsTerminator(i: Inst) {
    i.kind.Ret? || i.kind.Branch? || i.kind.Invoke?
  }

  // ---------- buffers for vectors ----------

  datatype ElementId = IntId | FloatId(kind: FloatKind) | PtrId

  /** createVecBufKey: number of elements, bytes of an element, type id of the element. */
  datatype BufferKey = BufferKey(count: nat, bytes: nat, element: ElementId)

  function KeyOf(t: Type): BufferKey
    requires t.VecT?
  {
    BufferKey(t.count, ElementBits(t.element) / 8,
              match t.element
              case IntElement(_) => IntId
              case FloatElement(k) => FloatId(k)
              case PtrElement(_) => PtrId)
  }

  predicate WholeBytes(t: Type) {
    t.VecT? ==> !t.element.PtrElement? && ElementBits(t.element) % 8 == 0
  }

  /** Among vector types with elements of whole bytes, and no pointers, the key tells all apart. */
  lemma KeysInjective(t: Type, u: Type)
    requires t.VecT? && u.VecT? && WholeBytes(t) && WholeBytes(u)
    ensures KeyOf(t) == KeyOf(u) <==> t == u
  {
    if t.element.IntElement? && u.element.IntElement? {
      assert t.element.width == 8 * (t.element.width / 8);
      assert u.element.width == 8 * (u.element.width / 8);
    }
  }

  /** Exactly when two vector types share a key: same count and element kind, and integer widths
      that agree after rounding down to whole bytes. */
  lemma KeysEqual(t: Type, u: Type)
    requires t.VecT? && u.VecT?
    ensures KeyOf(t) == KeyOf(u) <==>
            t.count == u.count
            && match (t.element, u.element) {
                 case (IntElement(w), IntElement(v)) => w / 8 == v / 8
                 case (FloatElement(k), FloatElement(l)) => k == l
                 case (PtrElement(_), PtrElement(_)) => true
                 case _ => false
               }
  {
  }
}

/**
 What the pass has to log for each instruction, as lines, in the order of the source
 (full-trace/full_trace.cpp:381-452, 495-522, 607-700, 910-1143), and the static names.
 */
module Annotations {
  import opened Wrappers
  import opened StaticIds
  import opened TraceText
  import opened Ir

  /** The value a line shows: none (printed as 0), a null pointer, a string, or an operand. */
  datatype LineValue = NoValue | NullPointer | StringText(text: string) | Of(operand: Operand)

  datatype Line =
    | HeaderLine(line: int, func: string, bb: string, inst: string, opcode: int)
    | OperandLine(tag: int, size: nat, value: LineValue, isReg: bool, name: string, phi: Option<string>)

  /** printParamLine: nothing is printed for a value of a type it does not handle. */
  function ParamLines(tag: int, size: nat, value: Option<Operand>, isReg: bool, name: string, intrinsic: bool,
                      phi: Option<string>): seq<Line> {
    if value.None? then [OperandLine(tag, size, NoValue, isReg, name, phi)]
    else
      match TypeOf(value.value)
      case IntT(_) => [OperandLine(tag, size, Of(value.value), isReg, name, phi)]
      case FloatT(_) => [OperandLine(tag, size, Of(value.value), isReg, name, phi)]
      case VecT(_, _) => [OperandLine(tag, size, Of(value.value), isReg, name, phi)]
      case PtrT =>
        var shown := if intrinsic then NullPointer
                     else if value.value.StringConstant? then StringText(value.value.text)
                     else Of(value.value);
        [OperandLine(tag, size, shown, isReg, name, phi)]
      case _ => []
  }

  /** The name of an operand: of an instruction its id, of a block its block id. */
  function OperandName(varNames: map<int, string>, o: Operand): string {
    match o
    case Result(_, _, name, slot) => InstId(varNames, name, slot, "", 0).0
    case BlockOperand(b) => BlockId(b)
    case _ => NameOf(o).GetOr("")
  }

  function OperandIsReg(o: Operand): bool {
    o.Result? || o.BlockOperand? || NameOf(o).Some?
  }

  /** Labels and functions have no value to print. */
  function OperandLines(varNames: map<int, string>, index: nat, o: Operand, intrinsic: bool): seq<Line> {
    ParamLines(index + 1, MemSize(TypeOf(o)), if o.BlockOperand? || o.FunctionOperand? then None else Some(o),
               OperandIsReg(o), OperandName(varNames, o), intrinsic, None)
  }

  /** The operands of a phi: an instruction's result has no value yet, anything else has. */
  function PhiOperandLines(varNames: map<int, string>, index: nat, o: Operand, pred: BlockRef): seq<Line> {
    ParamLines(index + 1, MemSize(TypeOf(o)), if o.Result? then None else Some(o),
               o.Result? || NameOf(o).Some?, if o.Result? then OperandName(varNames, o) else NameOf(o).GetOr(""),
               false, Some(BlockId(pred)))
  }

  /** The first n operands, last one first. */
  function LinesDown(varNames: map<int, string>, i: Inst, n: nat): seq<Line>
    requires n <= |i.args|
  {
    if n == 0 then [] else OperandLines(varNames, n - 1, i.args[n - 1], false) + LinesDown(varNames, i, n - 1)
  }

  function PhiLinesDown(varNames: map<int, string>, i: Inst, n: nat): seq<Line>
    requires i.kind.Phi? && n <= |i.args| && n <= |i.kind.preds|
  {
    if n == 0 then []
    else PhiOperandLines(varNames, n - 1, i.args[n - 1], i.kind.preds[n - 1]) + PhiLinesDown(varNames, i, n - 1)
  }

  /** The arguments of a call from the k-th on, in order, as many as the callee has parameters. */
  function ArgumentLines(varNames: map<int, string>, i: Inst, k: nat): seq<Line>
    requires i.kind.DirectCall?
    decreases |i.args| - k
  {
    if k >= |i.args| || k >= i.kind.formals then []
    else OperandLines(varNames, k, i.args[k], i.kind.intrinsic) + ArgumentLines(varNames, i, k + 1)
  }

  /** The line that names the function being called, numbered after the arguments. */
  function CalleeLines(i: Inst): seq<Line>
    requires i.kind.DirectCall?
  {
    ParamLines(|i.args| + 1, 64, Some(FunctionOperand(i.kind.callee)), true, i.kind.callee, i.kind.intrinsic, None)
  }

  function AllOperandLines(varNames: map<int, string>, i: Inst): seq<Line> {
    if i.kind.DirectCall? then CalleeLines(i) + ArgumentLines(varNames, i, 0)
    else LinesDown(varNames, i, |i.args|)
  }

  function ResultLines(i: Inst, id: string): seq<Line> {
    if i.ty.VoidT? then []
    else ParamLines(RESULT_LINE, MemSize(i.ty), Some(Result(i.id, i.ty, i.name, i.slot)), true, id, false, None)
  }

  /** slotToVarName and the counter of ids of the current block. */
  datatype Env = Env(varNames: map<int, string>, instc: nat)

  /** An instruction with the lines to log before and after it; `id` is its static id, if it gets one. */
  datatype Annotated = Annotated(before: seq<Line>, inst: Inst, after: seq<Line>, id: Option<string>)

  /** A bitcast of a named pointer goes by the pointer's name, also in later lines. */
  predicate Renames(varNames: map<int, string>, i: Inst) {
    i.kind.Bitcast? && !i.ty.VoidT? && i.slot !in varNames && |i.args| > 0
    && TypeOf(i.args[0]).PtrT? && NameOf(i.args[0]).Some?
  }

  /** The variable that the first debug declaration of the slot, up to the terminator, names. */
  function DeclaredName(slot: int, later: seq<Inst>): Option<string>
    decreases later
  {
    if later == [] then None
    else if later[0].kind.DebugDeclare? && later[0].kind.address == Some(slot) then Some(later[0].kind.variable)
    else if IsTerminator(later[0]) then None
    else DeclaredName(slot, later[1..])
  }

  /** A debug declaration further down the block names an alloca without a name. */
  function AfterAlloca(varNames: map<int, string>, i: Inst, later: seq<Inst>): map<int, string> {
    if i.name.Some? then varNames
    else
      match DeclaredName(i.slot, later)
      case Some(variable) => varNames[i.slot := variable]
      case None => varNames
  }

  function AfterResult(varNames: map<int, string>, i: Inst, later: seq<Inst>): map<int, string> {
    if Renames(varNames, i) then varNames[i.slot := NameOf(i.args[0]).value]
    else if i.kind.Alloca? then AfterAlloca(varNames, i, later)
    else varNames
  }

  /** An instruction and, for the names of allocas, the ones after it in its block. */
  function Annotate(func: string, bbid: string, env: Env, i: Inst, later: seq<Inst>): (Annotated, Env) {
    if i.kind.Invoke? then (Annotated([], i, [], None), env)
    else
      var (id, instc) := InstId(env.varNames, i.name, i.slot, bbid, env.instc);
      if !Traced(i) then (Annotated([], i, [], Some(id)), env.(instc := instc))
      else
        var before := [HeaderLine(i.line, func, bbid, id, ShownOpcode(i))] + AllOperandLines(env.varNames, i);
        var shown := if Renames(env.varNames, i) then NameOf(i.args[0]).value else id;
        (Annotated(before, i, ResultLines(i, shown), Some(id)), Env(AfterResult(env.varNames, i, later), instc))
  }

  function AnnotateAll(func: string, bbid: string, env: Env, insts: seq<Inst>): (r: (seq<Annotated>, Env))
    ensures |r.0| == |insts| && forall k :: 0 <= k < |insts| ==> r.0[k].inst == insts[k]
    decreases insts
  {
    if insts == [] then ([], env)
    else
      var (a, next) := Annotate(func, bbid, env, insts[0], insts[1..]);
      var (rest, last) := AnnotateAll(func, bbid, next, insts[1..]);
      ([a] + rest, last)
  }

  function PhiLines(func: string, bbid: string, env: Env, i: Inst): seq<Line>
    requires i.kind.Phi?
  {
    var id := InstId(env.varNames, i.name, i.slot, bbid, env.instc).0;
    var n := if |i.args| <= |i.kind.preds| then |i.args| else |i.kind.preds|;
    [HeaderLine(i.line, func, bbid, id, ShownOpcode(i))] + PhiLinesDown(env.varNames, i, n) + ResultLines(i, id)
  }

  function AfterPhi(bbid: string, env: Env, i: Inst): Env {
    env.(instc := InstId(env.varNames, i.name, i.slot, bbid, env.instc).1)
  }

  /** All lines of the phis of a block, which come before its first other instruction. */
  function AllPhiLines(func: string, bbid: string, env: Env, phis: seq<Inst>): seq<Line>
    requires forall i <- phis :: i.kind.Phi?
    decreases phis
  {
    if phis == [] then []
    else PhiLines(func, bbid, env, phis[0]) + AllPhiLines(func, bbid, AfterPhi(bbid, env, phis[0]), phis[1..])
  }

  function AfterPhis(bbid: string, env: Env, phis: seq<Inst>): Env
    decreases phis
  {
    if phis == [] then env else AfterPhis(bbid, AfterPhi(bbid, env, phis[0]), phis[1..])
  }

  function PhiCount(insts: seq<Inst>): (n: nat)
    ensures n <= |insts|
    ensures forall k :: 0 <= k < n ==> insts[k].kind.Phi?
    ensures n < |insts| ==> !insts[n].kind.Phi?
    decreases insts
  {
    if insts == [] || !insts[0].kind.Phi? then 0 else 1 + PhiCount(insts[1..])
  }

  /** The phis of a block with their ids; their lines go further down. */
  function PhiAnnotations(bbid: string, env: Env, phis: seq<Inst>): (r: seq<Annotated>)
    ensures |r| == |phis|
    ensures forall k :: 0 <= k < |phis| ==>
              r[k].before == [] && r[k].inst == phis[k] && r[k].after == [] && r[k].id.Some?
    decreases phis
  {
    if phis == [] then []
    else
      var id := InstId(env.varNames, phis[0].name, phis[0].slot, bbid, env.instc).0;
      [Annotated([], phis[0], [], Some(id))] + PhiAnnotations(bbid, AfterPhi(bbid, env, phis[0]), phis[1..])
  }

  function Bare(insts: seq<Inst>): seq<Annotated> {
    seq(|insts|, k requires 0 <= k < |insts| => Annotated([], insts[k], [], None))
  }

  /** The lines of the phis go in front of the first annotated instruction. */
  function WithLines(lines: seq<Line>, anns: seq<Annotated>): seq<Annotated> {
    if anns == [] then [] else [anns[0].(before := lines + anns[0].before)] + anns[1..]
  }

  function AnnotateBlock(func: string, varNames: map<int, string>, b: Block): (seq<Annotated>, map<int, string>) {
    var bbid := BlockId(b.ref);
    var n := PhiCount(b.insts);
    var env := Env(varNames, 0);
    var (anns, last) := AnnotateAll(func, bbid, AfterPhis(bbid, env, b.insts[..n]), b.insts[n..]);
    (PhiAnnotations(bbid, env, b.insts[..n]) + WithLines(AllPhiLines(func, bbid, env, b.insts[..n]), anns),
     last.varNames)
  }

  /** Goes through a list, threading a state along. */
  function Accumulate<S, B, A>(step: (S, B) -> (A, S), s: S, bs: seq<B>): (r: seq<A>)
    ensures |r| == |bs|
    decreases bs
  {
    if bs == [] then [] else [step(s, bs[0]).0] + Accumulate(step, step(s, bs[0]).1, bs[1..])
  }

  /** Each element is treated on its own, in some state that keeps what every step keeps. */
  lemma {:induction false} AccumulateAt<S, B, A>(step: (S, B) -> (A, S), s: S, bs: seq<B>, k: nat, good: S -> bool)
    returns (t: S)
    requires k < |bs| && good(s)
    requires forall u: S, i: nat :: good(u) && i < |bs| ==> good(step(u, bs[i]).1)
    ensures good(t) && Accumulate(step, s, bs)[k] == step(t, bs[k]).0
    decreases k
  {
    if k == 0 {
      t := s;
    } else {
      forall u: S, i: nat | good(u) && i < |bs[1..]|
        ensures good(step(u, bs[1..][i]).1)
      {
        assert bs[1..][i] == bs[i + 1];
      }
      assert bs[0] == bs[..1][0];
      t := AccumulateAt(step, step(s, bs[0]).1, bs[1..], k - 1, good);
    }
  }

  /** The blocks of a function one after the other, with the names known so far. */
  function BlockStep(func: string): (map<int, string>, Block) -> (seq<Annotated>, map<int, string>) {
    (varNames, b) => AnnotateBlock(func, varNames, b)
  }

  function AnnotateBlocks(func: string, varNames: map<int, string>, bs: seq<Block>): (r: seq<seq<Annotated>>)
    ensures |r| == |bs|
  {
    Accumulate(BlockStep(func), varNames, bs)
  }

  /** The blocks of a function with what the pass logs in them. */
  function AnnotateFunction(f: Func): (r: seq<seq<Annotated>>)
    ensures |r| == |f.blocks|
  {
    if !f.supported || f.skipBody then seq(|f.blocks|, k requires 0 <= k < |f.blocks| => Bare(f.blocks[k].insts))
    else AnnotateBlocks(f.name, map[], f.blocks)
  }

  /** The arguments of a function: numbered in a tracked function, forwarded in any other. */
  function ParamLinesFrom(f: Func, k: nat): seq<Line>
    decreases |f.params| - k
  {
    if k >= |f.params| then []
    else
      var p := f.params[k];
      ParamLines(if f.tracked then k + 1 else FORWARD_LINE, MemSize(TypeOf(p)), Some(p), NameOf(p).Some?,
                 NameOf(p).GetOr(""), false, None)
      + ParamLinesFrom(f, k + 1)
  }

  /** main, and functions without C linkage, get nothing at their entry. */
  function EntryLines(f: Func): seq<Line> {
    if !f.supported || f.name == "main" then [] else ParamLinesFrom(f, 0)
  }

  // ---------- the instructions are kept ----------

  /** Each block is annotated on its own, with the names known when the pass comes to it. */
  lemma BlockOf(func: string, varNames: map<int, string>, bs: seq<Block>, k: nat)
    returns (names: map<int, string>)
    requires k < |bs|
    ensures AnnotateBlocks(func, varNames, bs)[k] == AnnotateBlock(func, names, bs[k]).0
  {
    names := AccumulateAt(BlockStep(func), varNames, bs, k, _ => true);
  }

  function InstsOf(anns: seq<Annotated>): seq<Inst> {
    seq(|anns|, k requires 0 <= k < |anns| => anns[k].inst)
  }

  lemma AnnotateBlockInsts(func: string, varNames: map<int, string>, b: Block)
    ensures InstsOf(AnnotateBlock(func, varNames, b).0) == b.insts
  {
    var n, bbid, env := PhiCount(b.insts), BlockId(b.ref), Env(varNames, 0);
    var anns := AnnotateAll(func, bbid, AfterPhis(bbid, env, b.insts[..n]), b.insts[n..]).0;
    BlockInsts(b.insts, n, PhiAnnotations(bbid, env, b.insts[..n]), AllPhiLines(func, bbid, env, b.insts[..n]), anns);
  }

  lemma BlockInsts(insts: seq<Inst>, n: nat, phis: seq<Annotated>, lines: seq<Line>, anns: seq<Annotated>)
    requires n <= |insts| && InstsOf(phis) == insts[..n] && InstsOf(anns) == insts[n..]
    ensures InstsOf(phis + WithLines(lines, anns)) == insts
  {
    var all := phis + WithLines(lines, anns);
    assert |InstsOf(anns)| == |anns| && |InstsOf(phis)| == |phis|;
    forall k | 0 <= k < |all|
      ensures InstsOf(all)[k] == insts[k]
    {
      if k >= n {
        assert all[k].inst == anns[k - n].inst == InstsOf(anns)[k - n];
      } else {
        assert all[k].inst == InstsOf(phis)[k];
      }
    }
  }

  /** Annotating leaves the instructions of every block as they are. */
  lemma AnnotateFunctionInsts(f: Func, k: nat)
    requires k < |f.blocks|
    ensures InstsOf(AnnotateFunction(f)[k]) == f.blocks[k].insts
  {
    if f.supported && !f.skipBody {
      var names := BlockOf(f.name, map[], f.blocks, k);
      AnnotateBlockInsts(f.name, names, f.blocks[k]);
    }
  }
}
