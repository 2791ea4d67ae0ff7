/**
 What the lines show, said over operands and types: which operands have a line, in which order, and
 with which number, width, value, register flag and name (full-trace/full_trace.cpp:495-522,
 607-700, 910-1143).
 */
module LineContent {
  import opened Wrappers
  import opened Numerals
  import opened TraceText
  import opened StaticIds
  import opened Ir
  import opened Annotations
  import opened Semantics

  /** Where an operand is shown: in front of an instruction, in front of a call of an intrinsic, as
      an operand of a phi, or as a parameter at the entry of a function. */
  datatype Place = Usual | OfIntrinsic | OfPhi(preds: seq<BlockRef>) | OfEntry(tracked: bool)

  predicate Handled(t: Type) {
    t.IntT? || t.FloatT? || t.PtrT? || t.VecT?
  }

  predicate FloatWidth(k: FloatKind, size: nat) {
    (k.Half? && size == 16) || (k.Float? && size == 32) || (k.Double? && size == 64) || (k.X86Fp80? && size == 80)
    || ((k.Fp128? || k.PpcFp128?) && size == 128)
  }

  predicate ElementWidth(e: Element, size: nat) {
    match e
    case IntElement(w) => size == w
    case FloatElement(k) => FloatWidth(k, size)
    case PtrElement(_) => size == 0
  }

  /** The width of a value in bits. */
  ghost predicate IsWidth(t: Type, size: nat) {
    match t
    case IntT(w) => size == w
    case FloatT(k) => FloatWidth(k, size)
    case PtrT => size == 64
    case VecT(n, e) => exists w: nat :: ElementWidth(e, w) && size == n * w
    case OtherT(w) => size == w
    case _ => size == 0
  }

  ghost predicate OperandWidth(o: Operand, size: nat) {
    match o
    case BlockOperand(_) => size == 0
    case FunctionOperand(_) => size == 64
    case StringConstant(_, _, _) => size == 64
    case _ => IsWidth(o.ty, size)
  }

  /** Operands shown without a value. */
  predicate Valueless(p: Place, o: Operand) {
    match p
    case OfPhi(_) => o.Result?
    case OfEntry(_) => false
    case _ => o.BlockOperand? || o.FunctionOperand?
  }

  predicate HasLine(p: Place, o: Operand) {
    Valueless(p, o)
    || match o
       case BlockOperand(_) => false
       case FunctionOperand(_) => true
       case StringConstant(_, _, _) => true
       case _ => Handled(o.ty)
  }

  predicate ShowsValue(p: Place, o: Operand, v: LineValue) {
    if Valueless(p, o) then v == NoValue
    else
      match o
      case StringConstant(_, text, _) => v == if p.OfIntrinsic? then NullPointer else StringText(text)
      case FunctionOperand(_) => v == Of(o)
      case BlockOperand(_) => false
      case _ => v == if p.OfIntrinsic? && o.ty.PtrT? then NullPointer else Of(o)
  }

  /** A named value is a register and goes by its name; any other is none. */
  predicate IrNamed(name: Option<string>, isReg: bool, shown: string) {
    match name
    case Some(n) => isReg && shown == n
    case None => !isReg && shown == ""
  }

  /** What an instruction goes by: its name, a name its slot was given, the number of its slot, or
      else what is put in its place. */
  predicate GoesBy(varNames: map<int, string>, name: Option<string>, slot: int, otherwise: string, shown: string) {
    match name
    case Some(n) => shown == n
    case None =>
      if slot in varNames then shown == varNames[slot]
      else if slot < 0 then shown == otherwise
      else shown == IntText(slot)
  }

  predicate ShowsName(p: Place, varNames: map<int, string>, o: Operand, isReg: bool, shown: string) {
    match o
    case Result(_, _, name, slot) =>
      if p.OfEntry? then IrNamed(name, isReg, shown) else isReg && GoesBy(varNames, name, slot, "-0", shown)
    case FunctionOperand(f) => isReg && shown == f
    case BlockOperand(b) => isReg && shown == BlockId(b)
    case _ => IrNamed(o.name, isReg, shown)
  }

  predicate ShowsNumber(p: Place, k: nat, tag: int) {
    if p == OfEntry(false) then tag == FORWARD_LINE else tag == k + 1
  }

  /** The operand of a phi names the block it comes from. */
  predicate ShowsBlock(p: Place, k: nat, phi: Option<string>) {
    if p.OfPhi? then k < |p.preds| && phi == Some(BlockId(p.preds[k])) else phi.None?
  }

  /** The line for operand number k. */
  ghost predicate Shows(p: Place, varNames: map<int, string>, k: nat, o: Operand, l: Line) {
    && l.OperandLine?
    && ShowsNumber(p, k, l.tag) && OperandWidth(o, l.size) && ShowsValue(p, o, l.value)
    && ShowsName(p, varNames, o, l.isReg, l.name) && ShowsBlock(p, k, l.phi)
  }

  // ---------- lists of operands ----------

  predicate Rising(ks: seq<nat>) {
    forall i, j :: 0 <= i < j < |ks| ==> ks[i] < ks[j]
  }

  predicate Falling(ks: seq<nat>) {
    forall i, j :: 0 <= i < j < |ks| ==> ks[i] > ks[j]
  }

  /** The numbers of the operands from lo to hi that have a line. */
  ghost predicate Picks(p: Place, os: seq<Operand>, lo: nat, hi: nat, ks: seq<nat>)
    requires hi <= |os|
  {
    && (forall k <- ks :: lo <= k < hi && HasLine(p, os[k]))
    && (forall k: nat :: lo <= k < hi && HasLine(p, os[k]) ==> k in ks)
  }

  /** The j-th line shows operand ks[j]. */
  ghost predicate ShowsAll(p: Place, varNames: map<int, string>, os: seq<Operand>, ks: seq<nat>, ls: seq<Line>) {
    && |ls| == |ks|
    && forall j :: 0 <= j < |ks| ==> ks[j] < |os| && Shows(p, varNames, ks[j], os[ks[j]], ls[j])
  }

  /** One line for each of the first n operands that has one, the last of them first. */
  ghost predicate ListsDown(p: Place, varNames: map<int, string>, os: seq<Operand>, n: nat, ls: seq<Line>) {
    n <= |os| && exists ks :: Falling(ks) && Picks(p, os, 0, n, ks) && ShowsAll(p, varNames, os, ks, ls)
  }

  /** The same for the operands from lo to hi, in their order. */
  ghost predicate ListsUp(p: Place, varNames: map<int, string>, os: seq<Operand>, lo: nat, hi: nat, ls: seq<Line>) {
    hi <= |os| && exists ks :: Rising(ks) && Picks(p, os, lo, hi, ks) && ShowsAll(p, varNames, os, ks, ls)
  }

  /** At most one line: for operand number k, if that has one. */
  ghost predicate Own(p: Place, varNames: map<int, string>, k: nat, o: Operand, ls: seq<Line>) {
    if HasLine(p, o) then |ls| == 1 && Shows(p, varNames, k, o, ls[0]) else ls == []
  }

  lemma ShowsMore(p: Place, varNames: map<int, string>, os: seq<Operand>, k: nat, ks: seq<nat>, l: Line, ls: seq<Line>)
    requires k < |os| && Shows(p, varNames, k, os[k], l) && ShowsAll(p, varNames, os, ks, ls)
    ensures ShowsAll(p, varNames, os, [k] + ks, [l] + ls)
  {
    forall j | 0 <= j < |ks| + 1
      ensures ([k] + ks)[j] < |os| && Shows(p, varNames, ([k] + ks)[j], os[([k] + ks)[j]], ([l] + ls)[j])
    {
      if j > 0 {
        assert ([k] + ks)[j] == ks[j - 1] && ([l] + ls)[j] == ls[j - 1];
      }
    }
  }

  /** One more number: at the end or at the beginning of a range. */
  lemma PicksMore(p: Place, os: seq<Operand>, lo: nat, hi: nat, k: nat, lo': nat, hi': nat, ks: seq<nat>)
    requires hi <= |os| && hi' <= |os| && lo' <= k < hi' && Picks(p, os, lo, hi, ks)
    requires (lo == lo' && hi == k && hi' == k + 1) || (lo == k + 1 && lo' == k && hi == hi')
    ensures Picks(p, os, lo', hi', if HasLine(p, os[k]) then [k] + ks else ks)
  {
    assert forall n: nat :: n in [k] + ks <==> n == k || n in ks;
  }

  lemma FallsFrom(n: nat, ks: seq<nat>)
    requires Falling(ks) && forall k <- ks :: k < n
    ensures Falling([n] + ks)
  {
    assert forall j :: 0 <= j < |ks| ==> ks[j] in ks;
  }

  lemma RisesFrom(n: nat, ks: seq<nat>)
    requires Rising(ks) && forall k <- ks :: n < k
    ensures Rising([n] + ks)
  {
    assert forall j :: 0 <= j < |ks| ==> ks[j] in ks;
  }

  lemma NextDown(p: Place, varNames: map<int, string>, os: seq<Operand>, n: nat, first: seq<Line>, rest: seq<Line>)
    requires 0 < n <= |os| && Own(p, varNames, n - 1, os[n - 1], first) && ListsDown(p, varNames, os, n - 1, rest)
    ensures ListsDown(p, varNames, os, n, first + rest)
  {
    var ks :| Falling(ks) && Picks(p, os, 0, n - 1, ks) && ShowsAll(p, varNames, os, ks, rest);
    PicksMore(p, os, 0, n - 1, n - 1, 0, n, ks);
    if HasLine(p, os[n - 1]) {
      ShowsMore(p, varNames, os, n - 1, ks, first[0], rest);
      assert first == [first[0]];
      FallsFrom(n - 1, ks);
    } else {
      assert first + rest == rest;
    }
  }

  lemma NextUp(p: Place, varNames: map<int, string>, os: seq<Operand>, lo: nat, hi: nat, first: seq<Line>,
               rest: seq<Line>)
    requires lo < hi <= |os| && Own(p, varNames, lo, os[lo], first) && ListsUp(p, varNames, os, lo + 1, hi, rest)
    ensures ListsUp(p, varNames, os, lo, hi, first + rest)
  {
    var ks :| Rising(ks) && Picks(p, os, lo + 1, hi, ks) && ShowsAll(p, varNames, os, ks, rest);
    PicksMore(p, os, lo + 1, hi, lo, lo, hi, ks);
    if HasLine(p, os[lo]) {
      ShowsMore(p, varNames, os, lo, ks, first[0], rest);
      assert first == [first[0]];
      RisesFrom(lo, ks);
    } else {
      assert first + rest == rest;
    }
  }

  lemma NoneDown(p: Place, varNames: map<int, string>, os: seq<Operand>)
    ensures ListsDown(p, varNames, os, 0, [])
  {
    assert Falling([]) && Picks(p, os, 0, 0, []) && ShowsAll(p, varNames, os, [], []);
  }

  lemma NoneUp(p: Place, varNames: map<int, string>, os: seq<Operand>, lo: nat, hi: nat)
    requires hi <= lo && hi <= |os|
    ensures ListsUp(p, varNames, os, lo, hi, [])
  {
    assert Rising([]) && Picks(p, os, lo, hi, []) && ShowsAll(p, varNames, os, [], []);
  }

  // ---------- one operand ----------

  lemma FloatWidths(k: FloatKind)
    ensures FloatWidth(k, FloatBits(k))
  {
  }

  lemma Widths(t: Type)
    ensures IsWidth(t, MemSize(t))
  {
    match t
    case FloatT(k) => FloatWidths(k);
    case VecT(n, e) =>
      if e.FloatElement? {
        FloatWidths(e.kind);
      }
      assert ElementWidth(e, ElementBits(e)) && MemSize(t) == n * ElementBits(e);
    case _ =>
  }

  lemma OperandWidths(o: Operand)
    ensures OperandWidth(o, MemSize(TypeOf(o)))
  {
    Widths(TypeOf(o));
  }

  lemma OwnLine(varNames: map<int, string>, k: nat, o: Operand, intrinsic: bool)
    ensures Own(if intrinsic then OfIntrinsic else Usual, varNames, k, o, OperandLines(varNames, k, o, intrinsic))
  {
    OperandWidths(o);
    if o.Result? {
      assert ValuelessId("", 0) == "-0";
    }
  }

  lemma OwnPhiLine(varNames: map<int, string>, i: Inst, k: nat)
    requires i.kind.Phi? && k < |i.args| && k < |i.kind.preds|
    ensures Own(OfPhi(i.kind.preds), varNames, k, i.args[k],
                PhiOperandLines(varNames, k, i.args[k], i.kind.preds[k]))
  {
    OperandWidths(i.args[k]);
    if i.args[k].Result? {
      assert ValuelessId("", 0) == "-0";
    }
  }

  /** The line for a value that is there: one if its type is handled, none otherwise. */
  lemma ValueLine(tag: nat, size: nat, o: Operand, isReg: bool, name: string, intrinsic: bool, phi: Option<string>)
    ensures var ls := ParamLines(tag, size, Some(o), isReg, name, intrinsic, phi);
            if o.BlockOperand? || ((o.Result? || o.Argument? || o.Constant?) && !Handled(o.ty)) then ls == []
            else
              && |ls| == 1 && ls[0].OperandLine? && ls[0] == OperandLine(tag, size, ls[0].value, isReg, name, phi)
              && ls[0].value == if !intrinsic && o.StringConstant? then StringText(o.text)
                                else if intrinsic && (o.StringConstant? || o.FunctionOperand? || o.ty.PtrT?)
                                     then NullPointer
                                else Of(o)
  {
  }

  // ---------- the lines around one instruction ----------

  /** The lines of a call: the function called, numbered behind all arguments, then the arguments in
      order, as many as the function has parameters. */
  ghost predicate CallShown(varNames: map<int, string>, i: Inst, ls: seq<Line>)
    requires i.kind.DirectCall?
  {
    var n := if i.kind.formals < |i.args| then i.kind.formals else |i.args|;
    var place := if i.kind.intrinsic then OfIntrinsic else Usual;
    var address := if i.kind.intrinsic then NullPointer else Of(FunctionOperand(i.kind.callee));
    && ls != [] && ls[0] == OperandLine(|i.args| + 1, 64, address, true, i.kind.callee, None)
    && ListsUp(place, varNames, i.args, 0, n, ls[1..])
  }

  ghost predicate OperandsShown(varNames: map<int, string>, i: Inst, ls: seq<Line>) {
    if i.kind.DirectCall? then CallShown(varNames, i, ls) else ListsDown(Usual, varNames, i.args, |i.args|, ls)
  }

  /** The header: where the instruction is and what it goes by. */
  predicate IsHeader(func: string, bbid: string, env: Env, i: Inst, l: Line) {
    && l.HeaderLine? && l.line == i.line && l.func == func && l.bb == bbid && l.opcode == ShownOpcode(i)
    && GoesBy(env.varNames, i.name, i.slot, bbid + "-" + NatText(env.instc), l.inst)
  }

  /** The line of a result, for the types that are handled. */
  ghost predicate ResultShown(i: Inst, name: string, ls: seq<Line>) {
    if !Handled(i.ty) then ls == []
    else
      && |ls| == 1 && ls[0].OperandLine? && ls[0].tag == RESULT_LINE && IsWidth(i.ty, ls[0].size)
      && ls[0].value == Of(Result(i.id, i.ty, i.name, i.slot)) && ls[0].isReg && ls[0].name == name && ls[0].phi.None?
  }

  predicate NamedPointer(o: Operand, name: string) {
    match o
    case BlockOperand(_) => false
    case FunctionOperand(f) => f == name
    case StringConstant(_, _, n) => n == Some(name)
    case _ => o.ty.PtrT? && o.name == Some(name)
  }

  /** A bitcast of a pointer of this name that goes by no other name yet. */
  predicate Renaming(varNames: map<int, string>, i: Inst, name: string) {
    i.kind.Bitcast? && !i.ty.VoidT? && i.slot !in varNames && |i.args| > 0 && NamedPointer(i.args[0], name)
  }

  /** What the line of the result calls it. */
  ghost predicate ResultName(varNames: map<int, string>, i: Inst, id: string, shown: string) {
    Renaming(varNames, i, shown) || (shown == id && forall name :: !Renaming(varNames, i, name))
  }

  lemma {:induction false} ListedDown(varNames: map<int, string>, i: Inst, n: nat)
    requires n <= |i.args|
    ensures ListsDown(Usual, varNames, i.args, n, LinesDown(varNames, i, n))
  {
    if n == 0 {
      NoneDown(Usual, varNames, i.args);
    } else {
      var first, rest := OperandLines(varNames, n - 1, i.args[n - 1], false), LinesDown(varNames, i, n - 1);
      assert LinesDown(varNames, i, n) == first + rest;
      ListedDown(varNames, i, n - 1);
      OwnLine(varNames, n - 1, i.args[n - 1], false);
      NextDown(Usual, varNames, i.args, n, first, rest);
    }
  }

  lemma {:induction false} ListedUp(varNames: map<int, string>, i: Inst, lo: nat, hi: nat, place: Place)
    requires i.kind.DirectCall? && hi == (if i.kind.formals < |i.args| then i.kind.formals else |i.args|)
    requires place == if i.kind.intrinsic then OfIntrinsic else Usual
    ensures ListsUp(place, varNames, i.args, lo, hi, ArgumentLines(varNames, i, lo))
    decreases |i.args| - lo
  {
    if lo >= hi {
      NoneUp(place, varNames, i.args, lo, hi);
    } else {
      ListedUp(varNames, i, lo + 1, hi, place);
      OwnLine(varNames, lo, i.args[lo], i.kind.intrinsic);
      NextUp(place, varNames, i.args, lo, hi, OperandLines(varNames, lo, i.args[lo], i.kind.intrinsic),
             ArgumentLines(varNames, i, lo + 1));
    }
  }

  lemma NextPhi(varNames: map<int, string>, i: Inst, n: nat, rest: seq<Line>)
    requires i.kind.Phi? && 0 < n <= |i.args| && n <= |i.kind.preds|
    requires ListsDown(OfPhi(i.kind.preds), varNames, i.args, n - 1, rest)
    ensures ListsDown(OfPhi(i.kind.preds), varNames, i.args, n,
                      PhiOperandLines(varNames, n - 1, i.args[n - 1], i.kind.preds[n - 1]) + rest)
  {
    OwnPhiLine(varNames, i, n - 1);
    NextDown(OfPhi(i.kind.preds), varNames, i.args, n,
             PhiOperandLines(varNames, n - 1, i.args[n - 1], i.kind.preds[n - 1]), rest);
  }

  lemma {:induction false} ListedPhi(varNames: map<int, string>, i: Inst, n: nat)
    requires i.kind.Phi? && n <= |i.args| && n <= |i.kind.preds|
    ensures ListsDown(OfPhi(i.kind.preds), varNames, i.args, n, PhiLinesDown(varNames, i, n))
  {
    if n == 0 {
      NoneDown(OfPhi(i.kind.preds), varNames, i.args);
    } else {
      ListedPhi(varNames, i, n - 1);
      NextPhi(varNames, i, n, PhiLinesDown(varNames, i, n - 1));
    }
  }

  lemma CalleeShown(i: Inst)
    requires i.kind.DirectCall?
    ensures var address := if i.kind.intrinsic then NullPointer else Of(FunctionOperand(i.kind.callee));
            CalleeLines(i) == [OperandLine(|i.args| + 1, 64, address, true, i.kind.callee, None)]
  {
  }

  lemma CallsShown(varNames: map<int, string>, i: Inst)
    requires i.kind.DirectCall?
    ensures CallShown(varNames, i, AllOperandLines(varNames, i))
  {
    var n := if i.kind.formals < |i.args| then i.kind.formals else |i.args|;
    var arguments := ArgumentLines(varNames, i, 0);
    ListedUp(varNames, i, 0, n, if i.kind.intrinsic then OfIntrinsic else Usual);
    CalleeShown(i);
    FirstAndRest(CalleeLines(i), arguments);
  }

  lemma FirstAndRest(first: seq<Line>, rest: seq<Line>)
    requires |first| == 1
    ensures (first + rest)[0] == first[0] && (first + rest)[1..] == rest
  {
  }

  lemma AllShown(varNames: map<int, string>, i: Inst)
    ensures OperandsShown(varNames, i, AllOperandLines(varNames, i))
  {
    if i.kind.DirectCall? {
      CallsShown(varNames, i);
    } else {
      ListedDown(varNames, i, |i.args|);
    }
  }

  lemma ResultsShown(i: Inst, name: string)
    ensures ResultShown(i, name, ResultLines(i, name))
  {
    Widths(i.ty);
  }

  lemma RenamingOf(varNames: map<int, string>, i: Inst, name: string)
    ensures Renaming(varNames, i, name) <==> Renames(varNames, i) && NameOf(i.args[0]) == Some(name)
  {
  }

  lemma ResultNamed(varNames: map<int, string>, i: Inst, id: string)
    ensures ResultName(varNames, i, id, if Renames(varNames, i) then NameOf(i.args[0]).value else id)
  {
    if Renames(varNames, i) {
      RenamingOf(varNames, i, NameOf(i.args[0]).value);
    } else {
      forall name
        ensures !Renaming(varNames, i, name)
      {
        RenamingOf(varNames, i, name);
      }
    }
  }

  /**
   The lines around a traced instruction. In front: its header, then its operands, each that has a
   line with its own number, width, value, register flag and name - downwards, or, for a call, the
   function called and then the arguments upwards. Behind: its result.
   */
  lemma InstContent(func: string, bbid: string, env: Env, i: Inst, later: seq<Inst>) returns (name: string)
    requires Traced(i)
    ensures var a := Annotate(func, bbid, env, i, later).0;
            && a.before != [] && IsHeader(func, bbid, env, i, a.before[0])
            && OperandsShown(env.varNames, i, a.before[1..])
            && ResultName(env.varNames, i, a.before[0].inst, name) && ResultShown(i, name, a.after)
  {
    var a := Annotate(func, bbid, env, i, later).0;
    name := if Renames(env.varNames, i) then NameOf(i.args[0]).value else a.id.value;
    AllShown(env.varNames, i);
    assert a.before[1..] == AllOperandLines(env.varNames, i);
    ResultNamed(env.varNames, i, a.id.value);
    ResultsShown(i, name);
  }

  /** Line j is for operand number k, and no other line has that number. */
  ghost predicate OnlyLine(p: Place, varNames: map<int, string>, k: nat, o: Operand, ls: seq<Line>, j: nat) {
    && j < |ls| && Shows(p, varNames, k, o, ls[j])
    && forall h :: 0 <= h < |ls| && h != j ==> !Numbered(ls[h], k + 1)
  }

  predicate Numbered(l: Line, tag: int) {
    l.OperandLine? && l.tag == tag
  }

  /** Exactly one line for the operand if it has one, and none with its number otherwise. */
  ghost predicate OneLine(p: Place, varNames: map<int, string>, k: nat, o: Operand, ls: seq<Line>) {
    if HasLine(p, o) then exists j: nat :: OnlyLine(p, varNames, k, o, ls, j)
    else forall h :: 0 <= h < |ls| ==> !Numbered(ls[h], k + 1)
  }

  lemma NumberedAt(p: Place, varNames: map<int, string>, os: seq<Operand>, ks: seq<nat>, ls: seq<Line>, h: nat, k: nat)
    requires ShowsAll(p, varNames, os, ks, ls) && !p.OfEntry? && h < |ls|
    ensures Numbered(ls[h], k + 1) <==> ks[h] == k
  {
  }

  lemma OneAmong(p: Place, varNames: map<int, string>, os: seq<Operand>, lo: nat, hi: nat, ks: seq<nat>,
                 ls: seq<Line>, k: nat)
    requires (Rising(ks) || Falling(ks)) && lo <= k < hi <= |os| && Picks(p, os, lo, hi, ks)
    requires ShowsAll(p, varNames, os, ks, ls) && !p.OfEntry?
    ensures OneLine(p, varNames, k, os[k], ls)
  {
    forall h | 0 <= h < |ls|
      ensures Numbered(ls[h], k + 1) <==> ks[h] == k
    {
      NumberedAt(p, varNames, os, ks, ls, h, k);
    }
    if HasLine(p, os[k]) {
      var j :| 0 <= j < |ks| && ks[j] == k;
      assert Shows(p, varNames, k, os[k], ls[j]);
      assert forall h :: 0 <= h < |ks| && h != j ==> ks[h] != ks[j];
      assert OnlyLine(p, varNames, k, os[k], ls, j);
    } else {
      assert forall h :: 0 <= h < |ks| ==> ks[h] in ks;
    }
  }

  lemma MoreInFront(p: Place, varNames: map<int, string>, k: nat, o: Operand, first: Line, ls: seq<Line>)
    requires OneLine(p, varNames, k, o, ls) && !Numbered(first, k + 1)
    ensures OneLine(p, varNames, k, o, [first] + ls)
  {
    if HasLine(p, o) {
      var j: nat :| OnlyLine(p, varNames, k, o, ls, j);
      assert ([first] + ls)[j + 1] == ls[j];
      assert OnlyLine(p, varNames, k, o, [first] + ls, j + 1);
    }
  }

  lemma OneOfArguments(p: Place, varNames: map<int, string>, os: seq<Operand>, n: nat, ls: seq<Line>, k: nat)
    requires ListsUp(p, varNames, os, 0, n, ls) && !p.OfEntry? && k < n
    ensures OneLine(p, varNames, k, os[k], ls)
  {
    var ks :| Rising(ks) && Picks(p, os, 0, n, ks) && ShowsAll(p, varNames, os, ks, ls);
    OneAmong(p, varNames, os, 0, n, ks, ls, k);
  }

  lemma OneOfCall(varNames: map<int, string>, i: Inst, ls: seq<Line>, k: nat)
    requires i.kind.DirectCall? && CallShown(varNames, i, ls) && k < |i.args| && k < i.kind.formals
    ensures OneLine(if i.kind.intrinsic then OfIntrinsic else Usual, varNames, k, i.args[k], ls)
  {
    var n := if i.kind.formals < |i.args| then i.kind.formals else |i.args|;
    var place := if i.kind.intrinsic then OfIntrinsic else Usual;
    OneOfArguments(place, varNames, i.args, n, ls[1..], k);
    MoreInFront(place, varNames, k, i.args[k], ls[0], ls[1..]);
    assert [ls[0]] + ls[1..] == ls;
  }

  lemma OneOfOperands(varNames: map<int, string>, i: Inst, ls: seq<Line>, k: nat)
    requires ListsDown(Usual, varNames, i.args, |i.args|, ls) && k < |i.args|
    ensures OneLine(Usual, varNames, k, i.args[k], ls)
  {
    var ks :| Falling(ks) && Picks(Usual, i.args, 0, |i.args|, ks) && ShowsAll(Usual, varNames, i.args, ks, ls);
    OneAmong(Usual, varNames, i.args, 0, |i.args|, ks, ls, k);
  }

  /**
   In front of every traced instruction, each of its operands - of a call, each argument that the
   callee has a parameter for - has exactly one line with its number, which shows this operand, if it
   has a line, and none otherwise.
   */
  lemma EachOperandOnce(func: string, bbid: string, env: Env, i: Inst, later: seq<Inst>, k: nat)
    requires Traced(i) && k < |i.args| && (i.kind.DirectCall? ==> k < i.kind.formals)
    ensures OneLine(if i.kind.DirectCall? && i.kind.intrinsic then OfIntrinsic else Usual, env.varNames, k, i.args[k],
                    Annotate(func, bbid, env, i, later).0.before)
  {
    var ls := Annotate(func, bbid, env, i, later).0.before;
    var name := InstContent(func, bbid, env, i, later);
    var place := if i.kind.DirectCall? && i.kind.intrinsic then OfIntrinsic else Usual;
    if i.kind.DirectCall? {
      OneOfCall(env.varNames, i, ls[1..], k);
    } else {
      OneOfOperands(env.varNames, i, ls[1..], k);
    }
    MoreInFront(place, env.varNames, k, i.args[k], ls[0], ls[1..]);
    assert [ls[0]] + ls[1..] == ls;
  }

  /** Header, operands downwards - each with the block it comes from, an instruction's result without
      its value - and the result. */
  ghost predicate PhiShown(func: string, bbid: string, env: Env, i: Inst, ls: seq<Line>)
    requires i.kind.Phi?
  {
    var n := if |i.args| < |i.kind.preds| then |i.args| else |i.kind.preds|;
    && ls != [] && IsHeader(func, bbid, env, i, ls[0])
    && exists m: nat ::
         && 1 <= m <= |ls| && ListsDown(OfPhi(i.kind.preds), env.varNames, i.args, n, ls[1..m])
         && ResultShown(i, ls[0].inst, ls[m..])
  }

  lemma PhiContent(func: string, bbid: string, env: Env, i: Inst)
    requires i.kind.Phi?
    ensures PhiShown(func, bbid, env, i, PhiLines(func, bbid, env, i))
  {
    var n := if |i.args| < |i.kind.preds| then |i.args| else |i.kind.preds|;
    var ls, operands := PhiLines(func, bbid, env, i), PhiLinesDown(env.varNames, i, n);
    ListedPhi(env.varNames, i, n);
    ResultsShown(i, ls[0].inst);
    var m := 1 + |operands|;
    assert ls[1..m] == operands && ls[m..] == ResultLines(i, ls[0].inst);
  }

  lemma LineOf(place: Place, varNames: map<int, string>, os: seq<Operand>, n: nat, ls: seq<Line>, k: nat)
    returns (l: Line)
    requires ListsDown(place, varNames, os, n, ls) && k < n && HasLine(place, os[k])
    ensures l in ls && Shows(place, varNames, k, os[k], l)
  {
    var ks :| Falling(ks) && Picks(place, os, 0, n, ks) && ShowsAll(place, varNames, os, ks, ls);
    var j :| 0 <= j < |ks| && ks[j] == k;
    l := ls[j];
  }

  /** The first operand of a phi for a block: the machine takes its value. */
  lemma {:induction false} PhiTakes<W>(m: Machine<W>, fr: Frame, i: Inst, from: nat, k: nat, first: nat)
    requires i.kind.Phi? && k <= first < |i.args| && first < |i.kind.preds| && i.kind.preds[first].index == from
    requires forall j :: k <= j < first ==> i.kind.preds[j].index != from
    ensures PhiValue(m, fr, i, from, k) == Eval(m, fr, i.args[first])
    decreases first - k
  {
    if k < first {
      PhiTakes(m, fr, i, from, k + 1, first);
    }
  }

  /**
   When control comes from a block, the operand that the phi takes has a line that names this block
   and, unless it shows no value or a text, shows the value that the phi gets, whatever registers have
   changed in between.
   */
  lemma PhiFollowed<W>(m: Machine<W>, fr: Frame, fr': Frame, func: string, bbid: string, env: Env, i: Inst,
                       from: BlockRef, k: nat)
    returns (l: Line)
    requires i.kind.Phi? && k < |i.args| && k < |i.kind.preds| && i.kind.preds[k] == from && fr'.args == fr.args
    requires forall j :: 0 <= j < k ==> i.kind.preds[j].index != from.index
    requires HasLine(OfPhi(i.kind.preds), i.args[k])
    ensures l in PhiLines(func, bbid, env, i) && l.OperandLine? && l.tag == k + 1 && l.phi == Some(BlockId(from))
    ensures l.value.Of? ==> Eval(m, fr', l.value.operand) == PhiValue(m, fr, i, from.index, 0)
    ensures l.value.NoValue? <==> i.args[k].Result?
  {
    var n := if |i.args| < |i.kind.preds| then |i.args| else |i.kind.preds|;
    ListedPhi(env.varNames, i, n);
    l := LineOf(OfPhi(i.kind.preds), env.varNames, i.args, n, PhiLinesDown(env.varNames, i, n), k);
    InPhi(func, bbid, env, i, n, l);
    PhiTakes(m, fr, i, from.index, 0, k);
    if !i.args[k].Result? {
      SameArgument(m, fr, fr', i.args[k]);
    }
  }

  lemma InPhi(func: string, bbid: string, env: Env, i: Inst, n: nat, l: Line)
    requires i.kind.Phi? && n == (if |i.args| < |i.kind.preds| then |i.args| else |i.kind.preds|)
    requires l in PhiLinesDown(env.varNames, i, n)
    ensures l in PhiLines(func, bbid, env, i)
  {
    assert PhiLines(func, bbid, env, i)[1..1 + |PhiLinesDown(env.varNames, i, n)|] == PhiLinesDown(env.varNames, i, n);
  }

  lemma SameArgument<W>(m: Machine<W>, fr: Frame, fr': Frame, o: Operand)
    requires fr'.args == fr.args && !o.Result?
    ensures Eval(m, fr', o) == Eval(m, fr, o)
  {
  }

  // ---------- the parameters ----------

  /** One line for each parameter of a handled type, in order. */
  ghost predicate ParamsShown(f: Func, ls: seq<Line>) {
    ListsUp(OfEntry(f.tracked), map[], f.params, 0, |f.params|, ls)
  }

  function ParamLine(f: Func, k: nat): seq<Line>
    requires k < |f.params|
  {
    var p := f.params[k];
    ParamLines(if f.tracked then k + 1 else FORWARD_LINE, MemSize(TypeOf(p)), Some(p), NameOf(p).Some?,
               NameOf(p).GetOr(""), false, None)
  }

  lemma OwnParam(f: Func, k: nat)
    requires k < |f.params|
    ensures Own(OfEntry(f.tracked), map[], k, f.params[k], ParamLine(f, k))
  {
    OperandWidths(f.params[k]);
  }

  lemma {:induction false} ListedParams(f: Func, k: nat)
    ensures ListsUp(OfEntry(f.tracked), map[], f.params, k, |f.params|, ParamLinesFrom(f, k))
    decreases |f.params| - k
  {
    var place := OfEntry(f.tracked);
    if k >= |f.params| {
      NoneUp(place, map[], f.params, k, |f.params|);
    } else {
      ListedParams(f, k + 1);
      OwnParam(f, k);
      NextUp(place, map[], f.params, k, |f.params|, ParamLine(f, k), ParamLinesFrom(f, k + 1));
    }
  }

  /** What the entry of a function logs: a line for each parameter that has one, with the parameter
      itself, numbered from 1 in a tracked function and forwarded in any other. */
  lemma EntryContent(f: Func)
    ensures if f.supported && f.name != "main" then ParamsShown(f, EntryLines(f)) else EntryLines(f) == []
  {
    ListedParams(f, 0);
  }
}
