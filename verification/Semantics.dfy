/**
 What programs do. `ExecFunction` runs any program, instrumented or not: the inserted code can
 read registers but changes only the vector buffers, and its logger calls are collected.
 `TraceFunction` is the intended trace: it runs the original program and says, instruction by
 instruction, what is to be logged, with functions as nested activations.
 */
module Semantics {
  import opened Numerals
  import opened Tokens
  import opened Logger
  import opened Runs
  import opened Ir
  import opened Annotations
  import opened Pass

  /** The rest of the machine: what instructions compute, where branches go, what functions
      outside the program do. `W` is the world they act on: memory, files and so on. */
  datatype Machine<!W> = Machine(
    compute: (Inst, seq<Value>, W) -> (Value, W),
    branch: (Inst, seq<Value>, W) -> nat,
    external: (string, seq<Value>, W) -> (Value, W),
    callee: (seq<Value>, W) -> string,
    sessionName: (seq<Value>, W) -> string,
    address: string -> nat)

  const SET_TRACE_NAME := "llvmtracer_set_trace_name"

  const UNDEF := IntV(0)

  type Registers = map<nat, Value>

  datatype Frame = Frame(regs: Registers, args: seq<Value>)

  type Buffers = map<BufferKey, (Type, Value)>

  datatype Status = Returned(value: Value) | OutOfFuel | Stuck

  /** What happens in a run: the registers and the world after each original instruction are seen,
      and calls of the logger are made. */
  datatype Event<W> = Seen(regs: Registers, world: W) | Made(call: Call)

  function AllMade<W>(calls: seq<Call>): (es: seq<Event<W>>)
    ensures |es| == |calls|
  {
    seq(|calls|, k requires 0 <= k < |calls| => Made(calls[k]))
  }

  function CallsIn<W>(es: seq<Event<W>>): seq<Call>
    decreases es
  {
    if es == [] then [] else (if es[0].Made? then [es[0].call] else []) + CallsIn(es[1..])
  }

  /** The events of the program itself: what it sees, and the names it gives to its trace. */
  function Own<W>(es: seq<Event<W>>): seq<Event<W>>
    decreases es
  {
    if es == [] then []
    else (if es[0].Made? && !es[0].call.SetName? then [] else [es[0]]) + Own(es[1..])
  }

  /** What a run does if the logger does not stop it, in the order in which it happens. */
  datatype Outcome<W> = Outcome(status: Status, world: W, events: seq<Event<W>>)

  function Eval<W>(m: Machine<W>, fr: Frame, o: Operand): Value {
    match o
    case Result(id, _, _, _) => if id in fr.regs then fr.regs[id] else UNDEF
    case Argument(k, _, _) => if k < |fr.args| then fr.args[k] else UNDEF
    case Constant(v, _, _) => v
    case StringConstant(v, _, _) => v
    case FunctionOperand(f) => PtrV(m.address(f))
    case BlockOperand(_) => UNDEF
  }

  function EvalAll<W>(m: Machine<W>, fr: Frame, os: seq<Operand>): seq<Value> {
    seq(|os|, k requires 0 <= k < |os| => Eval(m, fr, os[k]))
  }

  function Define(fr: Frame, i: Inst, v: Value): Frame {
    if i.ty.VoidT? then fr else fr.(regs := fr.regs[i.id := v])
  }

  // ---------- what a line prints ----------

  function PowerOfTwo(n: nat): (r: nat)
    ensures r > 0
  {
    if n == 0 then 1 else 2 * PowerOfTwo(n - 1)
  }

  /** Integers are zero-extended to 64 bits and printed as signed. */
  function Extended(width: nat, n: int): int {
    var unsigned := n % PowerOfTwo(width);
    if unsigned < PowerOfTwo(63) then unsigned else unsigned - PowerOfTwo(64)
  }

  function FirstBytes(bytes: seq<Byte>, n: nat): seq<Byte> {
    if n <= |bytes| then bytes[..n] else bytes
  }

  function ValueToken(t: Type, v: Value): string {
    match (t, v)
    case (IntT(w), IntV(n)) => IntText(Extended(w, n))
    case (VecT(_, _), VecV(bytes)) => VectorToken(FirstBytes(bytes, MemSize(t) / 8))
    case _ => Token(v)
  }

  function ShownToken<W>(m: Machine<W>, fr: Frame, v: LineValue): string {
    match v
    case NoValue => IntText(0)
    case NullPointer => Token(PtrV(0))
    case StringText(s) => s
    case Of(o) => ValueToken(TypeOf(o), Eval(m, fr, o))
  }

  function CallWith(l: Line, token: string): Call
    requires l.OperandLine?
  {
    LogParam(l.tag, l.size, token, l.isReg, l.name, l.phi.Some?, l.phi.GetOr("phi"))
  }

  function LineCall<W>(m: Machine<W>, fr: Frame, l: Line): Call {
    match l
    case HeaderLine(line, f, bb, inst, op) => Log0(line, f, bb, inst, op)
    case OperandLine(_, _, v, _, _, _) => CallWith(l, ShownToken(m, fr, v))
  }

  function LineCalls<W>(m: Machine<W>, fr: Frame, ls: seq<Line>): seq<Call>
    decreases ls
  {
    if ls == [] then [] else [LineCall(m, fr, ls[0])] + LineCalls(m, fr, ls[1..])
  }

  // ---------- phis ----------

  function PhiValue<W>(m: Machine<W>, fr: Frame, i: Inst, from: nat, k: nat): Value
    requires i.kind.Phi?
    decreases |i.args| - k
  {
    if k >= |i.args| || k >= |i.kind.preds| then UNDEF
    else if i.kind.preds[k].index == from then Eval(m, fr, i.args[k])
    else PhiValue(m, fr, i, from, k + 1)
  }

  /** All phis at once: each reads the registers of before. */
  function PhiRegisters<W>(m: Machine<W>, fr: Frame, phis: seq<Inst>, from: nat): Registers
    requires forall i <- phis :: i.kind.Phi?
    decreases phis
  {
    if phis == [] then fr.regs
    else
      var last := phis[|phis| - 1];
      PhiRegisters(m, fr, phis[..|phis| - 1], from)[last.id := PhiValue(m, fr, last, from, 0)]
  }

  function LeadingPhis(nodes: seq<Node>): (r: seq<Inst>)
    ensures forall i <- r :: i.kind.Phi?
    decreases nodes
  {
    if nodes == [] || nodes[0].Inserted? || !nodes[0].inst.kind.Phi? then []
    else [nodes[0].inst] + LeadingPhis(nodes[1..])
  }

  // ---------- running a program ----------

  /** A function as it is executed: `func` for what it was, `blocks` for what is run. */
  datatype Body = Body(func: Func, blocks: seq<seq<Node>>)

  type Program = map<string, Body>

  function Past<W>(es: seq<Event<W>>, r: Outcome<W>): Outcome<W> {
    r.(events := es + r.events)
  }

  function Prefixed<W>(calls: seq<Call>, r: Outcome<W>): Outcome<W> {
    Past(AllMade(calls), r)
  }

  function ExecFunction<W>(m: Machine<W>, p: Program, fuel: nat, name: string, args: seq<Value>, w: W): Outcome<W>
    requires name in p
    decreases fuel, 0
  {
    if fuel == 0 then Outcome(OutOfFuel, w, [])
    else if p[name].blocks == [] then Outcome(Stuck, w, [])
    else ExecNodes(m, p, fuel - 1, p[name], 0, Frame(map[], args), map[], p[name].blocks[0], w)
  }

  function ExecCall<W>(m: Machine<W>, p: Program, fuel: nat, callee: string, args: seq<Value>, w: W): Outcome<W>
    decreases fuel, 1
  {
    if callee == SET_TRACE_NAME then
      var (v, w') := m.external(callee, args, w);
      Outcome(Returned(v), w', AllMade([SetName(m.sessionName(args, w))]))
    else if callee in p then ExecFunction(m, p, fuel, callee, args, w)
    else
      var (v, w') := m.external(callee, args, w);
      Outcome(Returned(v), w', [])
  }

  function ExecNodes<W>(m: Machine<W>, p: Program, fuel: nat, c: Body, at: nat, fr: Frame, bufs: Buffers,
                        nodes: seq<Node>, w: W): Outcome<W>
    decreases fuel, 2 + |nodes|, 0
  {
    if nodes == [] then Outcome(Stuck, w, [])
    else
      var rest := nodes[1..];
      match nodes[0]
      case Inserted(code) => ExecCode(m, p, fuel, c, at, fr, bufs, code, rest, w)
      case Original(i) => ExecInst(m, p, fuel, c, at, fr, bufs, i, rest, w)
  }

  /** Inserted code: it can get stuck, when a vector has no buffer of its type. */
  function ExecCode<W>(m: Machine<W>, p: Program, fuel: nat, c: Body, at: nat, fr: Frame, bufs: Buffers, code: Code,
                       rest: seq<Node>, w: W): Outcome<W>
    decreases fuel, 2 + |rest|, 1
  {
    match code
    case Log(l) => Prefixed([LineCall(m, fr, l)], ExecNodes(m, p, fuel, c, at, fr, bufs, rest, w))
    case StoreBuffer(key, o) =>
      if key in bufs && bufs[key].0 == TypeOf(o)
      then ExecNodes(m, p, fuel, c, at, fr, bufs[key := (TypeOf(o), Eval(m, fr, o))], rest, w)
      else Outcome(Stuck, w, [])
    case LogBuffer(l, key) =>
      if key in bufs && l.OperandLine?
      then Prefixed([CallWith(l, ValueToken(bufs[key].0, bufs[key].1))],
                    ExecNodes(m, p, fuel, c, at, fr, bufs, rest, w))
      else Outcome(Stuck, w, [])
    case Allocate(t) =>
      if t.VecT? then ExecNodes(m, p, fuel, c, at, fr, bufs[KeyOf(t) := (t, UNDEF)], rest, w)
      else Outcome(Stuck, w, [])
    case CallUpdateStatus(f, op, tracked) =>
      Prefixed([Update(f, op, tracked, true)], ExecNodes(m, p, fuel, c, at, fr, bufs, rest, w))
    case CallLogEntry(f, n) =>
      Prefixed([LogEntry(f, n)], ExecNodes(m, p, fuel, c, at, fr, bufs, rest, w))
  }

  predicate IsCall(i: Inst) {
    i.kind.DirectCall? || i.kind.IndirectCall?
  }

  function CalleeName<W>(m: Machine<W>, i: Inst, vals: seq<Value>, w: W): string {
    if i.kind.DirectCall? then i.kind.callee else m.callee(vals, w)
  }

  function ReturnValue(vals: seq<Value>): Value {
    if vals == [] then UNDEF else vals[0]
  }

  function ExecInst<W>(m: Machine<W>, p: Program, fuel: nat, c: Body, at: nat, fr: Frame, bufs: Buffers, i: Inst,
                       rest: seq<Node>, w: W): Outcome<W>
    decreases fuel, 2 + |rest|, 2
  {
    var vals := EvalAll(m, fr, i.args);
    if i.kind.Phi? then Past([Seen(fr.regs, w)], ExecNodes(m, p, fuel, c, at, fr, bufs, rest, w))
    else if i.kind.Ret? then Outcome(Returned(ReturnValue(vals)), w, [Seen(fr.regs, w)])
    else if i.kind.Branch? then ExecBranch(m, p, fuel, c, at, fr, bufs, i.kind.targets, m.branch(i, vals, w), w)
    else if i.kind.Invoke? then Outcome(Stuck, w, [])
    else if IsCall(i) then ExecCalled(m, p, fuel, c, at, fr, bufs, i, CalleeName(m, i, vals, w), vals, rest, w)
    else
      var (v, w') := m.compute(i, vals, w);
      var fr' := Define(fr, i, v);
      Past([Seen(fr'.regs, w')], ExecNodes(m, p, fuel, c, at, fr', bufs, rest, w'))
  }

  function ExecBranch<W>(m: Machine<W>, p: Program, fuel: nat, c: Body, at: nat, fr: Frame, bufs: Buffers,
                         targets: seq<nat>, t: nat, w: W): Outcome<W>
    decreases fuel, 0
  {
    if t >= |targets| || targets[t] >= |c.blocks| then Outcome(Stuck, w, [])
    else if fuel == 0 then Outcome(OutOfFuel, w, [])
    else
      var next := c.blocks[targets[t]];
      var fr' := fr.(regs := PhiRegisters(m, fr, LeadingPhis(next), at));
      Past([Seen(fr.regs, w)], ExecNodes(m, p, fuel - 1, c, targets[t], fr', bufs, next, w))
  }

  function ExecCalled<W>(m: Machine<W>, p: Program, fuel: nat, c: Body, at: nat, fr: Frame, bufs: Buffers, i: Inst,
                         callee: string, vals: seq<Value>, rest: seq<Node>, w: W): Outcome<W>
    decreases fuel, 2 + |rest|, 1
  {
    var r := ExecCall(m, p, fuel, callee, vals, w);
    if !r.status.Returned? then r
    else
      var fr' := Define(fr, i, r.status.value);
      Past(r.events + [Seen(fr'.regs, r.world)], ExecNodes(m, p, fuel, c, at, fr', bufs, rest, r.world))
  }

  // ---------- the intended trace ----------

  type Source = map<string, Func>

  /** What the instrumented program is to do, as events in their order and as nested items.
      `open`: how many activations, each the last item of the one around it, have not returned. */
  datatype Trace<W> = Trace(status: Status, world: W, events: seq<Event<W>>, items: seq<Item>, open: nat)

  function KindOf(f: Func): Runs.Kind {
    if !f.supported || f.skipBody then Runs.Bare
    else if f.tracked then Tracked
    else Untracked
  }

  /** The records of some lines, with the values their operands have now. */
  function Emits<W>(m: Machine<W>, fr: Frame, ls: seq<Line>): seq<Item>
    decreases ls
  {
    if ls == [] then [] else [Emit(LineCall(m, fr, ls[0]))] + Emits(m, fr, ls[1..])
  }

  function PhisOf(anns: seq<Annotated>): (r: seq<Inst>)
    ensures forall i <- r :: i.kind.Phi?
    decreases anns
  {
    if anns == [] || anns[0].before != [] || !anns[0].inst.kind.Phi? then [] else [anns[0].inst] + PhisOf(anns[1..])
  }

  function PastT<W>(es: seq<Event<W>>, r: Trace<W>): Trace<W> {
    r.(events := es + r.events)
  }

  function WithItems<W>(items: seq<Item>, r: Trace<W>): Trace<W> {
    r.(items := items + r.items)
  }

  /** The items are logged, then the rest happens. */
  function PrefixedT<W>(items: seq<Item>, r: Trace<W>): Trace<W> {
    PastT(AllMade(Calls(items)), WithItems(items, r))
  }

  /** The trace of a body as one activation, which stays open if the body does not return. */
  function Activated<W>(f: Func, body: Trace<W>): Trace<W> {
    var i := Activation(f.name, KindOf(f), |f.params|, body.items);
    Trace(body.status, body.world, AllMade(i.Prologue()) + body.events, [i],
          if body.status.Returned? then 0 else body.open + 1)
  }

  /** What the return of a function logs, in front of it. */
  function Leave(f: Func): seq<Call> {
    if KindOf(f).Bare? then [] else [Update(f.name, RET_OP, f.tracked, true)]
  }

  /** A call of a function of the program: its activation, with the arguments and the body in it. */
  function TraceFunction<W>(m: Machine<W>, p: Source, fuel: nat, name: string, args: seq<Value>, w: W): Trace<W>
    requires name in p
    decreases fuel, 0
  {
    var f := p[name];
    if fuel == 0 then Trace(OutOfFuel, w, [], [], 0)
    else if f.blocks == [] then Trace(Stuck, w, [], [], 0)
    else
      var fr := Frame(map[], args);
      var r := TraceBlock(m, p, fuel - 1, f, 0, fr, AnnotateFunction(f)[0], w);
      Activated(f, PrefixedT(Emits(m, fr, EntryLines(f)), r))
  }

  function TraceCall<W>(m: Machine<W>, p: Source, fuel: nat, callee: string, args: seq<Value>, w: W): Trace<W>
    decreases fuel, 1
  {
    if callee == SET_TRACE_NAME then
      var (v, w') := m.external(callee, args, w);
      Trace(Returned(v), w', AllMade([SetName(m.sessionName(args, w))]), [Rename(m.sessionName(args, w))], 0)
    else if callee in p then TraceFunction(m, p, fuel, callee, args, w)
    else
      var (v, w') := m.external(callee, args, w);
      Trace(Returned(v), w', [], [], 0)
  }

  /** Each instruction: the lines before it, what it does, the lines after it, and so on. */
  function TraceBlock<W>(m: Machine<W>, p: Source, fuel: nat, f: Func, at: nat, fr: Frame, anns: seq<Annotated>,
                         w: W): Trace<W>
    decreases fuel, 2 + |anns|, 0
  {
    if anns == [] then Trace(Stuck, w, [], [], 0)
    else PrefixedT(Emits(m, fr, anns[0].before),
                   TraceInst(m, p, fuel, f, at, fr, anns[0].inst, anns[0].after, anns[1..], w))
  }

  function TraceInst<W>(m: Machine<W>, p: Source, fuel: nat, f: Func, at: nat, fr: Frame, i: Inst, after: seq<Line>,
                        rest: seq<Annotated>, w: W): Trace<W>
    decreases fuel, 2 + |rest|, 3
  {
    var vals := EvalAll(m, fr, i.args);
    if i.kind.Phi? then PastT([Seen(fr.regs, w)], TraceAfter(m, p, fuel, f, at, fr, after, rest, w))
    else if i.kind.Ret? then Trace(Returned(ReturnValue(vals)), w, AllMade(Leave(f)) + [Seen(fr.regs, w)], [], 0)
    else if i.kind.Branch? then TraceBranch(m, p, fuel, f, at, fr, i.kind.targets, m.branch(i, vals, w), w)
    else if i.kind.Invoke? then Trace(Stuck, w, [], [], 0)
    else if IsCall(i) then TraceCalled(m, p, fuel, f, at, fr, i, CalleeName(m, i, vals, w), vals, after, rest, w)
    else
      var (v, w') := m.compute(i, vals, w);
      var fr' := Define(fr, i, v);
      PastT([Seen(fr'.regs, w')], TraceAfter(m, p, fuel, f, at, fr', after, rest, w'))
  }

  function TraceBranch<W>(m: Machine<W>, p: Source, fuel: nat, f: Func, at: nat, fr: Frame, targets: seq<nat>, t: nat,
                          w: W): Trace<W>
    decreases fuel, 0
  {
    if t >= |targets| || targets[t] >= |f.blocks| then Trace(Stuck, w, [], [], 0)
    else if fuel == 0 then Trace(OutOfFuel, w, [], [], 0)
    else
      var next := AnnotateFunction(f)[targets[t]];
      var fr' := fr.(regs := PhiRegisters(m, fr, PhisOf(next), at));
      PastT([Seen(fr.regs, w)], TraceBlock(m, p, fuel - 1, f, targets[t], fr', next, w))
  }

  function TraceCalled<W>(m: Machine<W>, p: Source, fuel: nat, f: Func, at: nat, fr: Frame, i: Inst, callee: string,
                          vals: seq<Value>, after: seq<Line>, rest: seq<Annotated>, w: W): Trace<W>
    decreases fuel, 2 + |rest|, 2
  {
    var r := TraceCall(m, p, fuel, callee, vals, w);
    if !r.status.Returned? then r
    else
      var fr' := Define(fr, i, r.status.value);
      PastT(r.events + [Seen(fr'.regs, r.world)],
            WithItems(r.items, TraceAfter(m, p, fuel, f, at, fr', after, rest, r.world)))
  }

  function TraceAfter<W>(m: Machine<W>, p: Source, fuel: nat, f: Func, at: nat, fr: Frame, after: seq<Line>,
                         rest: seq<Annotated>, w: W): Trace<W>
    decreases fuel, 2 + |rest|, 1
  {
    PrefixedT(Emits(m, fr, after), TraceBlock(m, p, fuel, f, at, fr, rest, w))
  }
}
