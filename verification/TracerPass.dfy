/**
 The pass itself (full-trace/full_trace.cpp), editing the blocks of the current function in
 place. Every method says which edit of the blocks it makes; together they make `Instrument`.
 */
module TracerPass {
  import opened Wrappers
  import opened Sequences
  import opened StaticIds
  import opened TraceText
  import opened Ir
  import opened Annotations
  import opened Pass
  import opened Preservation
  import opened Edits
  import opened BlockEdits
  import opened Numerals
  import Logger

  class Tracer {
    /** The blocks of the current function. */
    var blocks: seq<seq<Node>>
    var slotToVarName: map<int, string>
    var vectorBuffers: map<BufferKey, Type>
    ghost var shape: Shape

    ghost predicate Valid()
      reads this
    {
      && blocks == Whole(shape) && NoEntryPhi(shape)
      && OnePerKey(shape.buffers) && Registered(shape.buffers, vectorBuffers)
    }

    constructor ()
      ensures blocks == []
    {
      blocks, slotToVarName, vectorBuffers := [], map[], map[];
      shape := Shape([], []);
    }

    method InsertBefore(b: nat, rem: nat, code: Code)
      requires Valid() && At(shape, b, rem)
      modifies this`blocks, this`shape
      ensures Valid() && shape == Put(old(shape), b, rem, [code])
    {
      WholePut(shape, b, rem, [code]);
      PutKeepsEntry(shape, b, rem, [code]);
      var at := |blocks[b]| - rem;
      assert Nodes([code]) == [Inserted(code)];
      blocks := blocks[b := blocks[b][..at] + ([Inserted(code)] + blocks[b][at..])];
      shape := Put(shape, b, rem, [code]);
    }

    method AllocateBuffer(t: Type)
      requires Valid() && t.VecT? && KeyOf(t) !in vectorBuffers
      modifies this`blocks, this`shape, this`vectorBuffers
      ensures Valid() && shape == old(shape).(buffers := AddBuffer(old(shape.buffers), t))
    {
      RegisterBuffer(shape.buffers, vectorBuffers, t);
      WholeBuffer(shape, t);
      EntryInsertionPoint(shape);
      var at := FirstInsertionPoint(blocks[0]);
      assert blocks[0][..at] + ([Inserted(Allocate(t))] + blocks[0][at..]) == [Inserted(Allocate(t))] + blocks[0];
      blocks := blocks[0 := blocks[0][..at] + ([Inserted(Allocate(t))] + blocks[0][at..])];
      vectorBuffers := vectorBuffers[KeyOf(t) := t];
      shape := shape.(buffers := shape.buffers + [t]);
    }

    /** A vector is stored into the buffer of its type; a missing buffer is made at the very
        beginning of the function. */
    method CreateVectorArg(b: nat, rem: nat, vector: Operand) returns (key: BufferKey)
      requires Valid() && At(shape, b, rem) && TypeOf(vector).VecT?
      modifies this`blocks, this`shape, this`vectorBuffers
      ensures Valid() && key == KeyOf(TypeOf(vector))
      ensures shape == Put(old(shape), b, rem, [StoreBuffer(key, vector)]).(
                         buffers := AddBuffer(old(shape.buffers), TypeOf(vector)))
    {
      key := KeyOf(TypeOf(vector));
      if key !in vectorBuffers {
        AllocateBuffer(TypeOf(vector));
      }
      InsertBefore(b, rem, StoreBuffer(key, vector));
    }

    method PrintVectorLine(b: nat, rem: nat, line: Line)
      requires Valid() && At(shape, b, rem) && ShowsVector(line)
      modifies this`blocks, this`shape, this`vectorBuffers
      ensures Valid() && shape == PutLines(old(shape), b, rem, [line])
    {
      PutVectorLine(shape, b, rem, line);
      var key := CreateVectorArg(b, rem, line.value.operand);
      InsertBefore(b, rem, LogBuffer(line, key));
    }

    method PrintPlainLine(b: nat, rem: nat, line: Line)
      requires Valid() && At(shape, b, rem) && !ShowsVector(line)
      modifies this`blocks, this`shape, this`vectorBuffers
      ensures Valid() && shape == PutLines(old(shape), b, rem, [line])
    {
      PutLinesOne(shape, b, rem, line);
      InsertBefore(b, rem, Log(line));
    }

    /** One call of the printer for the type of the value; none for a type it does not handle. */
    method PrintParamLine(b: nat, rem: nat, tag: nat, size: nat, value: Option<Operand>, isReg: bool, name: string,
                          intrinsic: bool, phi: Option<string>)
      requires Valid() && At(shape, b, rem)
      modifies this`blocks, this`shape, this`vectorBuffers
      ensures Valid() && shape == PutLines(old(shape), b, rem,
                                           ParamLines(tag, size, value, isReg, name, intrinsic, phi))
    {
      PutLinesNone(shape, b, rem);
      if value.None? {
        PrintPlainLine(b, rem, OperandLine(tag, size, NoValue, isReg, name, phi));
      } else {
        match TypeOf(value.value)
        case IntT(_) => PrintPlainLine(b, rem, OperandLine(tag, size, Of(value.value), isReg, name, phi));
        case FloatT(_) => PrintPlainLine(b, rem, OperandLine(tag, size, Of(value.value), isReg, name, phi));
        case VecT(_, _) => PrintVectorLine(b, rem, OperandLine(tag, size, Of(value.value), isReg, name, phi));
        case PtrT =>
          var shown := Of(value.value);
          if intrinsic {
            shown := NullPointer;
          } else if value.value.StringConstant? {
            shown := StringText(value.value.text);
          }
          PrintPlainLine(b, rem, OperandLine(tag, size, shown, isReg, name, phi));
        case _ =>
      }
    }

    method PrintOperand(b: nat, rem: nat, index: nat, o: Operand, intrinsic: bool)
      requires Valid() && At(shape, b, rem)
      modifies this`blocks, this`shape, this`vectorBuffers
      ensures Valid() && shape == PutLines(old(shape), b, rem, OperandLines(slotToVarName, index, o, intrinsic))
    {
      var value := if o.BlockOperand? || o.FunctionOperand? then None else Some(o);
      PrintParamLine(b, rem, index + 1, MemSize(TypeOf(o)), value, OperandIsReg(o), OperandName(slotToVarName, o),
                     intrinsic, None);
    }

    /** getInstId: the name, a name found for the slot, the slot, or a fresh id of the block. */
    method GetInstId(i: Inst, bbid: string, instc: nat) returns (id: string, next: nat)
      ensures (id, next) == InstId(slotToVarName, i.name, i.slot, bbid, instc)
    {
      next := instc;
      if i.name.Some? {
        id := i.name.value;
      } else if i.slot in slotToVarName {
        id := slotToVarName[i.slot];
      } else if i.slot >= 0 {
        id := IntText(i.slot);
      } else {
        id := bbid + "-" + NatText(next);
        next := next + 1;
      }
    }

    method PrintOperandsDown(b: nat, rem: nat, i: Inst)
      requires Valid() && At(shape, b, rem)
      modifies this`blocks, this`shape, this`vectorBuffers
      ensures Valid() && shape == PutLines(old(shape), b, rem, LinesDown(slotToVarName, i, |i.args|))
    {
      var names := slotToVarName;
      ghost var s0, all := shape, LinesDown(names, i, |i.args|);
      ghost var done: seq<Line> := [];
      PrintNothing(s0, b, rem, all);
      var k := |i.args|;
      while k > 0
        invariant 0 <= k <= |i.args| && Valid() && names == slotToVarName
        invariant Printing(s0, shape, b, rem, done, LinesDown(names, i, k), all)
      {
        k := k - 1;
        ghost var lines := OperandLines(names, k, i.args[k], false);
        assert LinesDown(names, i, k + 1) == lines + LinesDown(names, i, k);
        PrintMore(s0, shape, b, rem, done, lines, LinesDown(names, i, k), all);
        PrintOperand(b, rem, k, i.args[k], false);
        done := done + lines;
      }
      PrintedAll(s0, shape, b, rem, done, all);
    }

    /** The header, then the operands from the last to the first; a return also updates the status. */
    method HandleNonPhiNonCallInstruction(f: Func, b: nat, rem: nat, i: Inst, bbid: string, id: string)
      requires Valid() && At(shape, b, rem) && !i.kind.DirectCall?
      modifies this`blocks, this`shape, this`vectorBuffers
      ensures Valid()
      ensures var lines := [HeaderLine(i.line, f.name, bbid, id, i.opcode)] + AllOperandLines(slotToVarName, i);
              shape == Put(PutLines(old(shape), b, rem, lines), b, rem,
                           if i.kind.Ret? then [CallUpdateStatus(f.name, Logger.RET_OP, f.tracked)] else [])
    {
      PrintPlainLine(b, rem, HeaderLine(i.line, f.name, bbid, id, i.opcode));
      PrintOperandsDown(b, rem, i);
      PutLinesTwice(old(shape), b, rem, [HeaderLine(i.line, f.name, bbid, id, i.opcode)],
                    AllOperandLines(slotToVarName, i));
      if i.kind.Ret? {
        InsertBefore(b, rem, CallUpdateStatus(f.name, Logger.RET_OP, f.tracked));
      } else {
        PutNone(shape, b, rem);
      }
    }

    /** What the header of a call shows, by the name of the callee. */
    method SelectOpcode(i: Inst) returns (opcode: int)
      requires i.kind.DirectCall?
      ensures opcode == ShownOpcode(i)
    {
      var callee := i.kind.callee;
      if callee == "dmaLoad" {
        opcode := DMA_LOAD;
      } else if callee == "dmaStore" {
        opcode := DMA_STORE;
      } else if callee == "dmaFence" {
        opcode := DMA_FENCE;
      } else if callee == "setReadyBits" {
        opcode := SET_READY_BITS;
      } else if IsSpecialMathOp(callee) {
        opcode := SPECIAL_MATH_OP;
      } else if callee == "setSamplingFactor" {
        opcode := SET_SAMPLING_FACTOR;
      } else if callee == "hostLoad" {
        opcode := HOST_LOAD;
      } else if callee == "hostStore" {
        opcode := HOST_STORE;
      } else if i.kind.intrinsic {
        opcode := INTRINSIC;
      } else {
        opcode := i.opcode;
      }
    }

    /** The header, the callee, then the arguments in order. */
    method HandleCallInstruction(f: Func, b: nat, rem: nat, i: Inst, bbid: string, id: string)
      requires Valid() && At(shape, b, rem) && i.kind.DirectCall?
      modifies this`blocks, this`shape, this`vectorBuffers
      ensures Valid()
      ensures shape == PutLines(old(shape), b, rem,
                                [HeaderLine(i.line, f.name, bbid, id, ShownOpcode(i))]
                                + AllOperandLines(slotToVarName, i))
    {
      var opcode := SelectOpcode(i);
      var header := HeaderLine(i.line, f.name, bbid, id, opcode);
      PrintPlainLine(b, rem, header);
      PrintParamLine(b, rem, |i.args| + 1, 64, Some(FunctionOperand(i.kind.callee)), true, i.kind.callee,
                     i.kind.intrinsic, None);
      PutLinesTwice(old(shape), b, rem, [header], CalleeLines(i));
      PrintArguments(b, rem, i);
      PutLinesTwice(old(shape), b, rem, [header] + CalleeLines(i), ArgumentLines(slotToVarName, i, 0));
      Associate([header], CalleeLines(i), ArgumentLines(slotToVarName, i, 0));
    }

    method PrintArguments(b: nat, rem: nat, i: Inst)
      requires Valid() && At(shape, b, rem) && i.kind.DirectCall?
      modifies this`blocks, this`shape, this`vectorBuffers
      ensures Valid() && shape == PutLines(old(shape), b, rem, ArgumentLines(slotToVarName, i, 0))
    {
      var names := slotToVarName;
      ghost var s0, all := shape, ArgumentLines(names, i, 0);
      ghost var done: seq<Line> := [];
      PrintNothing(s0, b, rem, all);
      var k := 0;
      while k < |i.args| && k < i.kind.formals
        invariant 0 <= k && Valid() && names == slotToVarName
        invariant Printing(s0, shape, b, rem, done, ArgumentLines(names, i, k), all)
      {
        ghost var lines := OperandLines(names, k, i.args[k], i.kind.intrinsic);
        PrintMore(s0, shape, b, rem, done, lines, ArgumentLines(names, i, k + 1), all);
        PrintOperand(b, rem, k, i.args[k], i.kind.intrinsic);
        done := done + lines;
        k := k + 1;
      }
      PrintedAll(s0, shape, b, rem, done, all);
    }

    /** The result goes in front of the next instruction. A bitcast of a named pointer shows the
        name of the pointer and passes it on. */
    method HandleInstructionResult(b: nat, rem: nat, i: Inst, instid: string)
      requires Valid() && At(shape, b, rem) && !i.ty.VoidT?
      modifies this
      ensures Valid()
      ensures var renames := Renames(old(slotToVarName), i);
              && slotToVarName == (if renames then old(slotToVarName)[i.slot := NameOf(i.args[0]).value]
                                   else old(slotToVarName))
              && shape == PutLines(old(shape), b, rem,
                                   ResultLines(i, if renames then NameOf(i.args[0]).value else instid))
    {
      var id := instid;
      if i.kind.Bitcast? && |i.args| > 0 {
        var operand := i.args[0];
        if i.slot !in slotToVarName && TypeOf(operand).PtrT? && NameOf(operand).Some? {
          id := NameOf(operand).value;
          slotToVarName := slotToVarName[i.slot := id];
        }
      }
      PrintParamLine(b, rem, RESULT_LINE, MemSize(i.ty), Some(Result(i.id, i.ty, i.name, i.slot)), true, id, false,
                     None);
    }

    /** Looks for the debug declaration of an alloca without a name, from the next instruction up
        to the terminator; `rem` counts the instructions that follow the alloca. */
    method ProcessAllocaInstruction(b: nat, rem: nat, i: Inst, ghost later: seq<Inst>)
      requires Valid() && EndsIn(shape, b, later) && rem == |later|
      modifies this`slotToVarName
      ensures Valid() && slotToVarName == AfterAlloca(old(slotToVarName), i, later)
    {
      if i.name.None? {
        var left, found, ended := rem, false, false;
        while left > 0 && !found && !ended
          invariant 0 <= left <= rem && Valid() && EndsIn(shape, b, later)
          invariant !found ==> slotToVarName == old(slotToVarName)
          invariant found ==> slotToVarName == AfterAlloca(old(slotToVarName), i, later)
          invariant ended ==> DeclaredName(i.slot, later) == None
          invariant !found && !ended ==> DeclaredName(i.slot, later) == DeclaredName(i.slot, later[rem - left..])
          decreases left
        {
          LaterInst(shape, b, later, left);
          assert later[rem - left..][1..] == later[rem - left + 1..];
          var next := blocks[b][|blocks[b]| - left].inst;
          left := left - 1;
          if next.kind.DebugDeclare? && next.kind.address == Some(i.slot) {
            slotToVarName := slotToVarName[i.slot := next.kind.variable];
            found := true;
          } else {
            ended := IsTerminator(next);
          }
        }
      }
    }

    /** The body of the loop over a block: skip or instrument the instruction at the iterator. */
    method RunOnInstruction(f: Func, b: nat, rem: nat, i: Inst, bbid: string, instc: nat, ghost later: seq<Inst>)
      returns (next: nat)
      requires Valid() && At(shape, b, rem) && rem == 1 + |later| && EndsIn(shape, b, later)
      modifies this
      ensures Valid()
      ensures var (a, env) := Annotate(f.name, bbid, Env(old(slotToVarName), instc), i, later);
              shape == PutInst(old(shape), b, rem, f, a) && env == Env(slotToVarName, next)
    {
      next := instc;
      PutNothing(f, shape, b, rem, i);
      if i.kind.Invoke? {
        return;
      }
      var id;
      id, next := GetInstId(i, bbid, instc);
      if i.kind.IndirectCall? {
        return;
      }
      if i.kind.DebugDeclare? || (i.kind.DirectCall? && !i.kind.listed && i.kind.intrinsic) {
        return;
      }
      ghost var a := Annotate(f.name, bbid, Env(slotToVarName, instc), i, later).0;
      InstrumentOperands(f, b, rem, i, bbid, id, a, later);
      InstrumentResult(b, rem - 1, i, id, a.after, later);
    }

    /** The lines in front of a traced instruction, and the status update of a return. */
    method InstrumentOperands(f: Func, b: nat, rem: nat, i: Inst, bbid: string, id: string, ghost a: Annotated,
                              ghost later: seq<Inst>)
      requires Valid() && At(shape, b, rem) && |later| < rem && EndsIn(shape, b, later) && Traced(i)
      requires a.inst == i && a.id.Some?
      requires a.before == [HeaderLine(i.line, f.name, bbid, id, ShownOpcode(i))] + AllOperandLines(slotToVarName, i)
      modifies this`blocks, this`shape, this`vectorBuffers
      ensures Valid() && EndsIn(shape, b, later)
      ensures shape == Put(PutLines(old(shape), b, rem, a.before), b, rem, BeforeReturn(f, a))
    {
      PutKeepsEnd(shape, b, rem, Codes(a.before), later);
      PutKeepsEnd(PutLines(shape, b, rem, a.before), b, rem, BeforeReturn(f, a), later);
      if i.kind.DirectCall? {
        HandleCallInstruction(f, b, rem, i, bbid, id);
        PutNone(shape, b, rem);
      } else {
        HandleNonPhiNonCallInstruction(f, b, rem, i, bbid, id);
      }
    }

    /** The result of a traced instruction, and what it tells about names. */
    method InstrumentResult(b: nat, rem: nat, i: Inst, id: string, ghost after: seq<Line>, ghost later: seq<Inst>)
      requires Valid() && EndsIn(shape, b, later) && rem == |later|
      requires after == ResultLines(i, if Renames(slotToVarName, i) then NameOf(i.args[0]).value else id)
      modifies this
      ensures Valid() && slotToVarName == AfterResult(old(slotToVarName), i, later)
      ensures shape == PutLines(old(shape), b, rem, after)
    {
      PutLinesNone(shape, b, rem);
      PutKeepsEnd(shape, b, rem, Codes(after), later);
      if !i.ty.VoidT? {
        HandleInstructionResult(b, rem, i, id);
      }
      if i.kind.Alloca? {
        ProcessAllocaInstruction(b, rem, i, later);
      }
    }

    method PrintPhiOperand(b: nat, rem: nat, index: nat, o: Operand, pred: BlockRef)
      requires Valid() && At(shape, b, rem)
      modifies this`blocks, this`shape, this`vectorBuffers
      ensures Valid() && shape == PutLines(old(shape), b, rem, PhiOperandLines(slotToVarName, index, o, pred))
    {
      var value := if o.Result? then None else Some(o);
      var name := if o.Result? then OperandName(slotToVarName, o) else NameOf(o).GetOr("");
      PrintParamLine(b, rem, index + 1, MemSize(TypeOf(o)), value, o.Result? || NameOf(o).Some?, name, false,
                     Some(BlockId(pred)));
    }

    /** The lines of one phi: header, operands from the last to the first, result. */
    method HandlePhiNode(f: Func, b: nat, rem: nat, i: Inst, bbid: string, instc: nat) returns (next: nat)
      requires Valid() && At(shape, b, rem) && i.kind.Phi?
      modifies this`blocks, this`shape, this`vectorBuffers
      ensures Valid() && shape == PutLines(old(shape), b, rem, PhiLines(f.name, bbid, Env(slotToVarName, instc), i))
      ensures Env(slotToVarName, next) == AfterPhi(bbid, Env(slotToVarName, instc), i)
    {
      var id;
      id, next := GetInstId(i, bbid, instc);
      var header := HeaderLine(i.line, f.name, bbid, id, i.opcode);
      var n := if |i.args| <= |i.kind.preds| then |i.args| else |i.kind.preds|;
      PrintPlainLine(b, rem, header);
      PrintPhiOperandsDown(b, rem, i, n);
      PutLinesTwice(old(shape), b, rem, [header], PhiLinesDown(slotToVarName, i, n));
      PrintPhiResult(b, rem, i, id);
      PutLinesTwice(old(shape), b, rem, [header] + PhiLinesDown(slotToVarName, i, n), ResultLines(i, id));
    }

    /** The k-th operand of a phi, when the later ones are printed. */
    method PrintNextPhiOperand(b: nat, rem: nat, i: Inst, k: nat, ghost s0: Shape, ghost done: seq<Line>,
                               ghost all: seq<Line>)
      returns (ghost more: seq<Line>)
      requires Valid() && i.kind.Phi? && k < |i.args| && k < |i.kind.preds|
      requires Printing(s0, shape, b, rem, done, PhiLinesDown(slotToVarName, i, k + 1), all)
      modifies this`blocks, this`shape, this`vectorBuffers
      ensures Valid() && Printing(s0, shape, b, rem, more, PhiLinesDown(slotToVarName, i, k), all)
    {
      ghost var lines := PhiOperandLines(slotToVarName, k, i.args[k], i.kind.preds[k]);
      PrintMore(s0, shape, b, rem, done, lines, PhiLinesDown(slotToVarName, i, k), all);
      PrintPhiOperand(b, rem, k, i.args[k], i.kind.preds[k]);
      more := done + lines;
    }

    method PrintPhiOperandsDown(b: nat, rem: nat, i: Inst, n: nat)
      requires Valid() && At(shape, b, rem) && i.kind.Phi? && n <= |i.args| && n <= |i.kind.preds|
      modifies this`blocks, this`shape, this`vectorBuffers
      ensures Valid() && shape == PutLines(old(shape), b, rem, PhiLinesDown(slotToVarName, i, n))
    {
      ghost var s0, all := shape, PhiLinesDown(slotToVarName, i, n);
      ghost var done: seq<Line> := [];
      PrintNothing(s0, b, rem, all);
      var k := n;
      while k > 0
        invariant 0 <= k <= n && Valid()
        invariant Printing(s0, shape, b, rem, done, PhiLinesDown(slotToVarName, i, k), all)
      {
        k := k - 1;
        done := PrintNextPhiOperand(b, rem, i, k, s0, done, all);
      }
      PrintedAll(s0, shape, b, rem, done, all);
    }

    method PrintPhiResult(b: nat, rem: nat, i: Inst, id: string)
      requires Valid() && At(shape, b, rem)
      modifies this`blocks, this`shape, this`vectorBuffers
      ensures Valid() && shape == PutLines(old(shape), b, rem, ResultLines(i, id))
    {
      if !i.ty.VoidT? {
        PrintParamLine(b, rem, RESULT_LINE, MemSize(i.ty), Some(Result(i.id, i.ty, i.name, i.slot)), true, id, false,
                       None);
      } else {
        PutLinesNone(shape, b, rem);
      }
    }

    /** Where the loop over the phis of a block is: the first j are done. */
    ghost predicate AtPhi(f: Func, b: nat, rem: nat, bbid: string, s0: Shape, phis: seq<Inst>, instc: nat, j: nat,
                          done: seq<Line>)
      reads this
    {
      && Valid() && PhisFirst(s0, b, rem, phis) && j <= |phis|
      && PhisLeft(f, bbid, s0, shape, b, rem, Env(slotToVarName, 0), phis, Env(slotToVarName, instc), j, done)
    }

    method HandlePhiAt(f: Func, b: nat, rem: nat, bbid: string, ghost s0: Shape, ghost phis: seq<Inst>, instc: nat,
                       j: nat, ghost done: seq<Line>)
      returns (next: nat, ghost more: seq<Line>)
      requires AtPhi(f, b, rem, bbid, s0, phis, instc, j, done) && j < |phis|
      modifies this`blocks, this`shape, this`vectorBuffers
      ensures AtPhi(f, b, rem, bbid, s0, phis, next, j + 1, more)
    {
      ghost var names := slotToVarName;
      LivePhiNode(s0, shape, b, rem, phis, done, j);
      var i := blocks[b][j].inst;
      PhiStep(f, bbid, s0, shape, b, rem, Env(names, 0), phis, Env(names, instc), j, done);
      more := done + PhiLines(f.name, bbid, Env(names, instc), i);
      next := HandlePhiNode(f, b, rem, i, bbid, instc);
    }

    /** Whether the live iterator over the phis is at one. */
    method IsAtPhi(f: Func, b: nat, rem: nat, bbid: string, ghost s0: Shape, ghost phis: seq<Inst>, ghost instc: nat,
                   j: nat, ghost done: seq<Line>)
      returns (phi: bool)
      requires AtPhi(f, b, rem, bbid, s0, phis, instc, j, done)
      ensures phi <==> j < |phis|
    {
      LivePhiNode(s0, shape, b, rem, phis, done, j);
      phi := IsPhi(blocks[b][j]);
    }

    /** The loop over the phis; the lines go in front of the insertion point. */
    method HandlePhisBefore(f: Func, b: nat, rem: nat, bbid: string, ghost phis: seq<Inst>)
      returns (instc: nat, ghost done: seq<Line>)
      requires AtPhi(f, b, rem, bbid, shape, phis, 0, 0, [])
      modifies this`blocks, this`shape, this`vectorBuffers
      ensures AtPhi(f, b, rem, bbid, old(shape), phis, instc, |phis|, done)
    {
      ghost var s0 := shape;
      instc, done := 0, [];
      var j := 0;
      var phi := IsAtPhi(f, b, rem, bbid, s0, phis, instc, j, done);
      while phi
        invariant AtPhi(f, b, rem, bbid, s0, phis, instc, j, done)
        invariant phi <==> j < |phis|
        decreases |phis| - j
      {
        instc, done := HandlePhiAt(f, b, rem, bbid, s0, phis, instc, j, done);
        j := j + 1;
        phi := IsAtPhi(f, b, rem, bbid, s0, phis, instc, j, done);
      }
    }

    /** All phis of a block, with their lines in front of its first other instruction. */
    method HandlePhiNodes(f: Func, b: nat, bbid: string, ghost insts: seq<Inst>) returns (instc: nat)
      requires Valid() && 0 < b < |shape.bodies| && shape.bodies[b] == Untouched(insts) && PhiCount(insts) < |insts|
      modifies this`blocks, this`shape, this`vectorBuffers
      ensures Valid() && At(old(shape), b, |insts| - PhiCount(insts))
      ensures shape == PutPhis(f, bbid, slotToVarName, old(shape), b, insts)
      ensures Env(slotToVarName, instc) == PhiEnv(bbid, slotToVarName, insts)
    {
      UntouchedInsertionPoint(insts);
      var rem := |blocks[b]| - FirstInsertionPoint(blocks[b]);
      ghost var phis := insts[..PhiCount(insts)];
      CountedPhisFirst(shape, b, insts);
      StartPhis(f, bbid, shape, b, rem, Env(slotToVarName, 0), phis);
      ghost var done;
      instc, done := HandlePhisBefore(f, b, rem, bbid, phis);
      FinishPhis(f, bbid, old(shape), shape, b, rem, Env(slotToVarName, 0), phis, Env(slotToVarName, instc), |phis|,
                 done);
    }

    /** One round of the loop over the instructions of a block, from the live iterator on. */
    method RunOnNext(f: Func, b: nat, rem: nat, bbid: string, instc: nat, ghost front: seq<Node>, ghost rest: seq<Inst>,
                     ghost goal: seq<Node>, ghost goalBuffers: seq<Type>, ghost goalNames: map<int, string>)
      returns (next: nat, ghost more: seq<Node>)
      requires Valid() && rest != [] && rem == |rest|
      requires Doing(f, bbid, Env(slotToVarName, instc), shape, b, front, rest, goal, goalBuffers, goalNames)
      modifies this
      ensures Valid() && |shape.bodies| == |old(shape.bodies)|
              && shape.bodies == old(shape.bodies)[b := shape.bodies[b]]
      ensures Doing(f, bbid, Env(slotToVarName, next), shape, b, more, rest[1..], goal, goalBuffers, goalNames)
    {
      LiveInst(shape, b, front, rest);
      DoOne(f, bbid, Env(slotToVarName, instc), shape, b, front, rest, goal, goalBuffers, goalNames);
      more := front + InstNodes(f, Annotate(f.name, bbid, Env(slotToVarName, instc), rest[0], rest[1..]).0);
      RestAtEnd(shape, b, front, rest);
      var i := blocks[b][|blocks[b]| - rem].inst;
      next := RunOnInstruction(f, b, rem, i, bbid, instc, rest[1..]);
    }

    /** The instructions of a block from the live iterator on, up to the end of the block. */
    method RunOnInsts(f: Func, b: nat, rem: nat, bbid: string, instc: nat, ghost front: seq<Node>,
                      ghost insts: seq<Inst>, ghost goal: seq<Node>, ghost goalBuffers: seq<Type>,
                      ghost goalNames: map<int, string>)
      returns (count: nat, ghost done: seq<Node>)
      requires Valid() && rem == |insts|
      requires Doing(f, bbid, Env(slotToVarName, instc), shape, b, front, insts, goal, goalBuffers, goalNames)
      modifies this
      ensures Valid() && |shape.bodies| == |old(shape.bodies)|
      ensures shape.bodies == old(shape.bodies)[b := shape.bodies[b]]
      ensures Doing(f, bbid, Env(slotToVarName, count), shape, b, done, [], goal, goalBuffers, goalNames)
    {
      ghost var bodies := shape.bodies;
      var left := rem;
      ghost var rest := insts;
      count, done := instc, front;
      while left != 0
        invariant left == |rest| && Valid() && |shape.bodies| == |bodies| && b < |bodies|
        invariant shape.bodies == bodies[b := shape.bodies[b]]
        invariant Doing(f, bbid, Env(slotToVarName, count), shape, b, done, rest, goal, goalBuffers, goalNames)
        decreases left
      {
        count, done := RunOnNext(f, b, left, bbid, count, done, rest, goal, goalBuffers, goalNames);
        rest := rest[1..];
        left := left - 1;
      }
      assert rest == [];
    }

    /** Phis are handled only if the block starts with one. */
    method HandleIfPhis(f: Func, b: nat, bbid: string, ghost insts: seq<Inst>) returns (instc: nat)
      requires Valid() && b < |shape.bodies| && shape.bodies[b] == Untouched(insts)
      requires PhiCount(insts) < |insts| && (b == 0 ==> shape.buffers == [])
      modifies this`blocks, this`shape, this`vectorBuffers
      ensures Valid() && At(old(shape), b, |insts| - PhiCount(insts))
      ensures shape == PutPhis(f, bbid, slotToVarName, old(shape), b, insts)
      ensures Env(slotToVarName, instc) == PhiEnv(bbid, slotToVarName, insts)
    {
      UntouchedBlock(shape, b, insts);
      StartsWithPhi(shape, b, insts);
      instc := 0;
      if IsPhi(blocks[b][0]) {
        instc := HandlePhiNodes(f, b, bbid, insts);
      } else {
        NoPhis(f, bbid, slotToVarName, shape, b, insts);
      }
    }

    /** The phis of a block, if it has any. */
    method StartOnBlock(f: Func, b: nat, bbid: string, ghost bl: Block) returns (instc: nat)
      requires Valid() && b < |shape.bodies| && shape.bodies[b] == Untouched(bl.insts) && bbid == BlockId(bl.ref)
      requires PhiCount(bl.insts) < |bl.insts| && (b == 0 ==> shape.buffers == []) && !f.skipBody
      modifies this`blocks, this`shape, this`vectorBuffers
      ensures Valid() && |shape.bodies| == |old(shape.bodies)|
              && shape.bodies == old(shape.bodies)[b := shape.bodies[b]]
      ensures PhisDone(f, slotToVarName, shape, old(shape.buffers), bl, b, Env(slotToVarName, instc))
    {
      ghost var s, names := shape, slotToVarName;
      instc := HandleIfPhis(f, b, bbid, bl.insts);
      StartBlock(f, names, s, bl, b, shape, Env(names, instc));
    }

    /** Instruments a block; the insertion point is taken before anything is inserted. */
    method InstrumentBlock(f: Func, b: nat)
      requires Valid() && b < |f.blocks| == |shape.bodies| && shape.bodies[b] == Untouched(f.blocks[b].insts)
      requires PhiCount(f.blocks[b].insts) < |f.blocks[b].insts| && (b == 0 ==> shape.buffers == []) && !f.skipBody
      modifies this
      ensures Valid()
      ensures var (anns, names) := Plan(f, old(slotToVarName), f.blocks[b]);
              && shape.bodies == old(shape.bodies)[b := BlockNodes(f, anns)]
              && shape.buffers == AddBuffers(old(shape.buffers), BlockLines(anns))
              && slotToVarName == names
    {
      UntouchedBlock(shape, b, f.blocks[b].insts);
      var insertp := |blocks[b]| - FirstInsertionPoint(blocks[b]);
      ghost var (anns, names) := Plan(f, slotToVarName, f.blocks[b]);
      var instc := StartOnBlock(f, b, BlockId(f.blocks[b].ref), f.blocks[b]);
      UpdateTwice(old(shape.bodies), b, shape.bodies[b], BlockNodes(f, anns));
      ghost var done;
      instc, done := RunOnInsts(f, b, insertp, BlockId(f.blocks[b].ref), instc,
                                PhiFront(f, old(slotToVarName), f.blocks[b]),
                                f.blocks[b].insts[PhiCount(f.blocks[b].insts)..],
                                BlockNodes(f, anns), AddBuffers(old(shape.buffers), BlockLines(anns)), names);
      DoneBlock(f, BlockId(f.blocks[b].ref), Env(slotToVarName, instc), shape, b, done,
                BlockNodes(f, anns), AddBuffers(old(shape.buffers), BlockLines(anns)), names);
    }

    /** Instruments a block as planned, or leaves it when the body of the function is skipped. */
    method RunOnBasicBlock(f: Func, b: nat)
      requires Valid() && b < |f.blocks| == |shape.bodies| && shape.bodies[b] == Untouched(f.blocks[b].insts)
      requires PhiCount(f.blocks[b].insts) < |f.blocks[b].insts| && (b == 0 ==> shape.buffers == [])
      modifies this
      ensures Valid()
      ensures var (anns, names) := Plan(f, old(slotToVarName), f.blocks[b]);
              && shape.bodies == old(shape.bodies)[b := BlockNodes(f, anns)]
              && shape.buffers == AddBuffers(old(shape.buffers), BlockLines(anns))
              && slotToVarName == names
    {
      if f.skipBody {
        BareNodes(f, f.blocks[b].insts);
        assert old(shape.bodies)[b := Untouched(f.blocks[b].insts)] == shape.bodies;
      } else {
        InstrumentBlock(f, b);
      }
    }

    /** The first node of the entry block that is not one of the buffers of this function. */
    method SkipBuffers() returns (at: nat)
      requires Valid() && NoAllocationFirst(shape)
      ensures at == |shape.buffers|
    {
      at := 0;
      BufferOrNot(shape, vectorBuffers, at);
      while at < |blocks[0]| && IsBuffer(vectorBuffers, blocks[0][at])
        invariant 0 <= at <= |shape.buffers| && at < |blocks[0]|
        invariant IsBuffer(vectorBuffers, blocks[0][at]) <==> at < |shape.buffers|
      {
        at := at + 1;
        BufferOrNot(shape, vectorBuffers, at);
      }
    }

    /** What opens the session of a tracked function. */
    method EnterToplevel(f: Func, rem: nat)
      requires Valid() && At(shape, 0, rem) && f.supported && f.name != "main"
      modifies this`blocks, this`shape
      ensures Valid() && shape == Put(old(shape), 0, rem, EntryUpdates(f))
    {
      PutNone(shape, 0, rem);
      if f.tracked {
        InsertBefore(0, rem, CallUpdateStatus(f.name, 0, true));
        InsertBefore(0, rem, CallLogEntry(f.name, |f.params|));
        PutTwice(old(shape), 0, rem, [CallUpdateStatus(f.name, 0, true)], [CallLogEntry(f.name, |f.params|)]);
        assert EntryUpdates(f) == [CallUpdateStatus(f.name, 0, true)] + [CallLogEntry(f.name, |f.params|)];
      }
    }

    method PrintNextParameter(f: Func, rem: nat, k: nat, ghost s0: Shape, ghost done: seq<Line>, ghost all: seq<Line>)
      returns (ghost more: seq<Line>)
      requires Valid() && k < |f.params| && Printing(s0, shape, 0, rem, done, ParamLinesFrom(f, k), all)
      modifies this`blocks, this`shape, this`vectorBuffers
      ensures Valid() && Printing(s0, shape, 0, rem, more, ParamLinesFrom(f, k + 1), all)
    {
      var p := f.params[k];
      var tag := if f.tracked then k + 1 else FORWARD_LINE;
      ghost var lines := ParamLines(tag, MemSize(TypeOf(p)), Some(p), NameOf(p).Some?, NameOf(p).GetOr(""), false,
                                    None);
      PrintMore(s0, shape, 0, rem, done, lines, ParamLinesFrom(f, k + 1), all);
      PrintParamLine(0, rem, tag, MemSize(TypeOf(p)), Some(p), NameOf(p).Some?, NameOf(p).GetOr(""), false, None);
      more := done + lines;
    }

    /** One line for each parameter, in order. */
    method PrintParameters(f: Func, rem: nat)
      requires Valid() && At(shape, 0, rem)
      modifies this`blocks, this`shape, this`vectorBuffers
      ensures Valid() && shape == PutLines(old(shape), 0, rem, ParamLinesFrom(f, 0))
    {
      ghost var s0, all := shape, ParamLinesFrom(f, 0);
      ghost var done: seq<Line> := [];
      PrintNothing(s0, 0, rem, all);
      var k := 0;
      while k < |f.params|
        invariant 0 <= k <= |f.params| && Valid()
        invariant Printing(s0, shape, 0, rem, done, ParamLinesFrom(f, k), all)
      {
        done := PrintNextParameter(f, rem, k, s0, done, all);
        k := k + 1;
      }
      PrintedAll(s0, shape, 0, rem, done, all);
    }

    /** At the entry: the session of a tracked function is opened, then the parameters are logged. */
    method RunOnFunctionEntry(f: Func)
      requires Valid() && NoAllocationFirst(shape) && f.supported && f.name != "main"
      modifies this`blocks, this`shape, this`vectorBuffers
      ensures Valid() && shape.bodies == old(shape.bodies)[0 := Nodes(EntryCodes(f)) + old(shape.bodies[0])]
      ensures shape.buffers == AddBuffers(old(shape.buffers), EntryLines(f))
    {
      var at := SkipBuffers();
      var rem := |blocks[0]| - at;
      EntryEdit(f, shape);
      WholeFront(shape);
      EnterToplevel(f, rem);
      PrintParameters(f, rem);
    }

    method RunOnNextBlock(f: Func, b: nat)
      requires Proper(f) && Valid() && b < |f.blocks| && BlocksLeft(f, shape, slotToVarName, b)
      modifies this
      ensures Valid() && BlocksLeft(f, shape, slotToVarName, b + 1)
    {
      NextBlock(f, shape, slotToVarName, b);
      assert f.blocks[b] in f.blocks;
      RunOnBasicBlock(f, b);
    }

    /** All blocks of the function, in order. */
    method RunOnBlocks(f: Func)
      requires Proper(f) && Valid() && BlocksLeft(f, shape, slotToVarName, 0)
      modifies this
      ensures Valid() && BlocksLeft(f, shape, slotToVarName, |f.blocks|)
    {
      var b := 0;
      while b < |f.blocks|
        invariant 0 <= b <= |f.blocks| && Valid()
        invariant BlocksLeft(f, shape, slotToVarName, b)
      {
        RunOnNextBlock(f, b);
        b := b + 1;
      }
    }

    /**
     The pass on a whole function, given its blocks, leaves exactly the instrumented function.
     Every block has an instruction that is no phi, and the entry block starts with one.
     */
    method RunOnFunction(f: Func)
      requires f.blocks != [] && Proper(f)
      modifies this
      ensures blocks == Instrument(f)
    {
      blocks := seq(|f.blocks|, k requires 0 <= k < |f.blocks| => Untouched(f.blocks[k].insts));
      if !f.supported {
        UnsupportedFunction(f);
        return;
      }
      slotToVarName, vectorBuffers := map[], map[];
      shape := Shape(blocks, []);
      StartFunction(f, shape);
      RunOnBlocks(f);
      FinishBlocks(f, shape, slotToVarName);
      ghost var done := shape;
      if f.name != "main" {
        RunOnFunctionEntry(f);
        FinishEntry(f, done, shape);
      } else {
        FinishMain(f, shape);
      }
    }
  }
}
