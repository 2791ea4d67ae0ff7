/**
 Every traced instruction has one header line in the instrumented block, and no other instruction
 has any (full-trace/full_trace.cpp:381-452, 910-971).
 */
module Headers {
  import opened Sequences
  import opened StaticIds
  import opened Ir
  import opened Annotations
  import opened Pass
  import opened BlockEdits

  /** The header lines among the lines. */
  function HeaderLines(ls: seq<Line>): seq<Line>
    decreases ls
  {
    if ls == [] then [] else (if ls[0].HeaderLine? then [ls[0]] else []) + HeaderLines(ls[1..])
  }

  /** The header lines that a piece of code logs. */
  function LoggedHeaders(nodes: seq<Node>): seq<Line>
    decreases nodes
  {
    if nodes == [] then []
    else
      (match nodes[0]
       case Inserted(Log(line)) => HeaderLines([line])
       case Inserted(LogBuffer(line, _)) => HeaderLines([line])
       case _ => [])
      + LoggedHeaders(nodes[1..])
  }

  function HeaderOf(func: string, bbid: string, i: Inst, id: string): Line {
    HeaderLine(i.line, func, bbid, id, ShownOpcode(i))
  }

  /** Every traced instruction has a static id. */
  ghost predicate Identified(anns: seq<Annotated>) {
    forall a <- anns :: Traced(a.inst) ==> a.id.Some?
  }

  /** One header for each traced instruction, in order, with the static id of the instruction. */
  function HeadersFor(func: string, bbid: string, anns: seq<Annotated>): seq<Line>
    decreases anns
  {
    if anns == [] then []
    else (if Traced(anns[0].inst) then [HeaderOf(func, bbid, anns[0].inst, anns[0].id.GetOr(""))] else [])
         + HeadersFor(func, bbid, anns[1..])
  }

  function TracedCount(insts: seq<Inst>): nat
    decreases insts
  {
    if insts == [] then 0 else (if Traced(insts[0]) then 1 else 0) + TracedCount(insts[1..])
  }

  // ---------- adding up ----------

  lemma {:induction false} HeaderLinesAppend(a: seq<Line>, b: seq<Line>)
    ensures HeaderLines(a + b) == HeaderLines(a) + HeaderLines(b)
    decreases a
  {
    if a == [] {
      assert a + b == b;
    } else {
      assert (a + b)[1..] == a[1..] + b;
      HeaderLinesAppend(a[1..], b);
      Associate(if a[0].HeaderLine? then [a[0]] else [], HeaderLines(a[1..]), HeaderLines(b));
    }
  }

  lemma {:induction false} LoggedAppend(a: seq<Node>, b: seq<Node>)
    ensures LoggedHeaders(a + b) == LoggedHeaders(a) + LoggedHeaders(b)
    decreases a
  {
    if a == [] {
      assert a + b == b;
    } else {
      assert (a + b)[1..] == a[1..] + b;
      LoggedAppend(a[1..], b);
    }
  }

  lemma {:induction false} HeadersForAppend(func: string, bbid: string, a: seq<Annotated>, b: seq<Annotated>)
    ensures HeadersFor(func, bbid, a + b) == HeadersFor(func, bbid, a) + HeadersFor(func, bbid, b)
    decreases a
  {
    if a == [] {
      assert a + b == b;
    } else {
      assert (a + b)[1..] == a[1..] + b;
      HeadersForAppend(func, bbid, a[1..], b);
    }
  }

  lemma {:induction false} HeadersForCount(func: string, bbid: string, anns: seq<Annotated>)
    ensures |HeadersFor(func, bbid, anns)| == TracedCount(InstsOf(anns))
    decreases anns
  {
    if anns != [] {
      HeadersForCount(func, bbid, anns[1..]);
      InstsOfFirst(anns);
      assert InstsOf(anns)[1..] == InstsOf(anns[1..]);
    }
  }

  ghost predicate NoHeaders(ls: seq<Line>) {
    forall l <- ls :: l.OperandLine?
  }

  lemma {:induction false} NoHeaderLines(ls: seq<Line>)
    requires NoHeaders(ls)
    ensures HeaderLines(ls) == []
    decreases ls
  {
    if ls != [] {
      assert ls[0] in ls && forall l <- ls[1..] :: l in ls;
      NoHeaderLines(ls[1..]);
    }
  }

  lemma OneThenNone(header: Line, rest: seq<Line>)
    requires header.HeaderLine? && NoHeaders(rest)
    ensures HeaderLines([header] + rest) == [header]
  {
    NoHeaderLines(rest);
    assert ([header] + rest)[1..] == rest;
  }

  // ---------- the lines of one instruction ----------

  lemma OperandNoHeader(varNames: map<int, string>, index: nat, o: Operand, intrinsic: bool)
    ensures NoHeaders(OperandLines(varNames, index, o, intrinsic))
  {
  }

  lemma PhiOperandNoHeader(varNames: map<int, string>, index: nat, o: Operand, pred: BlockRef)
    ensures NoHeaders(PhiOperandLines(varNames, index, o, pred))
  {
  }

  lemma NoHeadersTogether(a: seq<Line>, b: seq<Line>, all: seq<Line>)
    requires NoHeaders(a) && NoHeaders(b) && all == a + b
    ensures NoHeaders(all)
  {
    assert forall l <- all :: l in a || l in b;
  }

  lemma {:induction false} LinesDownNoHeaders(varNames: map<int, string>, i: Inst, n: nat)
    requires n <= |i.args|
    ensures NoHeaders(LinesDown(varNames, i, n))
  {
    if n > 0 {
      LinesDownNoHeaders(varNames, i, n - 1);
      OperandNoHeader(varNames, n - 1, i.args[n - 1], false);
      NoHeadersTogether(OperandLines(varNames, n - 1, i.args[n - 1], false), LinesDown(varNames, i, n - 1),
                        LinesDown(varNames, i, n));
    }
  }

  lemma {:induction false} ArgumentLinesNoHeaders(varNames: map<int, string>, i: Inst, k: nat)
    requires i.kind.DirectCall?
    ensures NoHeaders(ArgumentLines(varNames, i, k))
    decreases |i.args| - k
  {
    if k < |i.args| && k < i.kind.formals {
      ArgumentLinesNoHeaders(varNames, i, k + 1);
      OperandNoHeader(varNames, k, i.args[k], i.kind.intrinsic);
      NoHeadersTogether(OperandLines(varNames, k, i.args[k], i.kind.intrinsic), ArgumentLines(varNames, i, k + 1),
                        ArgumentLines(varNames, i, k));
    }
  }

  lemma {:induction false} PhiLinesDownNoHeaders(varNames: map<int, string>, i: Inst, n: nat)
    requires i.kind.Phi? && n <= |i.args| && n <= |i.kind.preds|
    ensures NoHeaders(PhiLinesDown(varNames, i, n))
  {
    if n > 0 {
      PhiLinesDownNoHeaders(varNames, i, n - 1);
      PhiOperandNoHeader(varNames, n - 1, i.args[n - 1], i.kind.preds[n - 1]);
      NoHeadersTogether(PhiOperandLines(varNames, n - 1, i.args[n - 1], i.kind.preds[n - 1]),
                        PhiLinesDown(varNames, i, n - 1), PhiLinesDown(varNames, i, n));
    }
  }

  lemma OperandsNoHeaders(varNames: map<int, string>, i: Inst)
    ensures NoHeaders(AllOperandLines(varNames, i))
  {
    if i.kind.DirectCall? {
      ArgumentLinesNoHeaders(varNames, i, 0);
    } else {
      LinesDownNoHeaders(varNames, i, |i.args|);
    }
  }

  /** An instruction that is no phi gets exactly one header line, in front of it, if it is traced
      - no invoke, no indirect call, no call of an untraced function - and no line otherwise. */
  lemma OneHeader(func: string, bbid: string, env: Env, i: Inst, later: seq<Inst>)
    ensures var a := Annotate(func, bbid, env, i, later).0;
            if Traced(i) then
              && a.id.Some? && a.before != [] && a.before[0] == HeaderOf(func, bbid, i, a.id.value)
              && HeaderLines(a.before) == [a.before[0]] && HeaderLines(a.after) == []
            else a.before == [] && a.after == []
  {
    if Traced(i) {
      var a := Annotate(func, bbid, env, i, later).0;
      OperandsNoHeaders(env.varNames, i);
      OneThenNone(HeaderOf(func, bbid, i, a.id.value), AllOperandLines(env.varNames, i));
      NoHeaderLines(a.after);
    }
  }

  /** The lines of a phi start with its header, too. */
  lemma OnePhiHeader(func: string, bbid: string, env: Env, i: Inst)
    requires i.kind.Phi?
    ensures HeaderLines(PhiLines(func, bbid, env, i))
            == [HeaderOf(func, bbid, i, InstId(env.varNames, i.name, i.slot, bbid, env.instc).0)]
  {
    var id := InstId(env.varNames, i.name, i.slot, bbid, env.instc).0;
    var n := if |i.args| <= |i.kind.preds| then |i.args| else |i.kind.preds|;
    PhiLinesDownNoHeaders(env.varNames, i, n);
    OneThenNone(HeaderOf(func, bbid, i, id), PhiLinesDown(env.varNames, i, n));
    NoHeaderLines(ResultLines(i, id));
    HeaderLinesAppend([HeaderOf(func, bbid, i, id)] + PhiLinesDown(env.varNames, i, n), ResultLines(i, id));
  }

  // ---------- the lines of a block ----------

  lemma {:induction false} PhiHeaders(func: string, bbid: string, env: Env, phis: seq<Inst>)
    requires forall i <- phis :: i.kind.Phi?
    ensures HeaderLines(AllPhiLines(func, bbid, env, phis)) == HeadersFor(func, bbid, PhiAnnotations(bbid, env, phis))
    decreases phis
  {
    if phis != [] {
      var next := AfterPhi(bbid, env, phis[0]);
      assert phis[0] in phis && forall i <- phis[1..] :: i in phis;
      OnePhiHeader(func, bbid, env, phis[0]);
      PhiHeaders(func, bbid, next, phis[1..]);
      HeaderLinesAppend(PhiLines(func, bbid, env, phis[0]), AllPhiLines(func, bbid, next, phis[1..]));
      assert PhiAnnotations(bbid, env, phis)[1..] == PhiAnnotations(bbid, next, phis[1..]);
    }
  }

  lemma FirstHeaders(func: string, bbid: string, a: Annotated, anns: seq<Annotated>)
    requires HeaderLines(a.before) + HeaderLines(a.after) == HeadersFor(func, bbid, [a])
    requires HeaderLines(BlockLines(anns)) == HeadersFor(func, bbid, anns)
    ensures HeaderLines(BlockLines([a] + anns)) == HeadersFor(func, bbid, [a] + anns)
  {
    assert ([a] + anns)[1..] == anns;
    HeaderLinesAppend(a.before + a.after, BlockLines(anns));
    HeaderLinesAppend(a.before, a.after);
    HeadersForAppend(func, bbid, [a], anns);
  }

  lemma OwnHeader(func: string, bbid: string, env: Env, i: Inst, later: seq<Inst>)
    ensures var a := Annotate(func, bbid, env, i, later).0;
            HeaderLines(a.before) + HeaderLines(a.after) == HeadersFor(func, bbid, [a])
  {
    OneHeader(func, bbid, env, i, later);
    var a := Annotate(func, bbid, env, i, later).0;
    assert [a][1..] == [] && a.inst == i;
  }

  lemma {:induction false} OtherHeaders(func: string, bbid: string, env: Env, insts: seq<Inst>)
    ensures var anns := AnnotateAll(func, bbid, env, insts).0;
            HeaderLines(BlockLines(anns)) == HeadersFor(func, bbid, anns)
    decreases insts
  {
    if insts != [] {
      var (a, next) := Annotate(func, bbid, env, insts[0], insts[1..]);
      OwnHeader(func, bbid, env, insts[0], insts[1..]);
      OtherHeaders(func, bbid, next, insts[1..]);
      FirstHeaders(func, bbid, a, AnnotateAll(func, bbid, next, insts[1..]).0);
    }
  }

  lemma {:induction false} OthersIdentified(func: string, bbid: string, env: Env, insts: seq<Inst>)
    ensures Identified(AnnotateAll(func, bbid, env, insts).0)
    decreases insts
  {
    if insts != [] {
      var (a, next) := Annotate(func, bbid, env, insts[0], insts[1..]);
      assert Traced(a.inst) ==> a.id.Some?;
      OthersIdentified(func, bbid, next, insts[1..]);
    }
  }

  lemma BlockIdentified(func: string, varNames: map<int, string>, b: Block)
    ensures Identified(AnnotateBlock(func, varNames, b).0)
  {
    var bbid, n, env := BlockId(b.ref), PhiCount(b.insts), Env(varNames, 0);
    OthersIdentified(func, bbid, AfterPhis(bbid, env, b.insts[..n]), b.insts[n..]);
    TogetherIdentified(PhiAnnotations(bbid, env, b.insts[..n]), AllPhiLines(func, bbid, env, b.insts[..n]),
                       AnnotateAll(func, bbid, AfterPhis(bbid, env, b.insts[..n]), b.insts[n..]).0);
  }

  lemma TogetherIdentified(phis: seq<Annotated>, lines: seq<Line>, anns: seq<Annotated>)
    requires Identified(phis) && Identified(anns)
    ensures Identified(phis + WithLines(lines, anns))
  {
    forall a | a in WithLines(lines, anns)
      ensures Traced(a.inst) ==> a.id.Some?
    {
      assert anns[0] in anns;
      assert a == WithLines(lines, anns)[0] || a in anns[1..];
    }
  }

  lemma WithLinesHeaders(f: Func, bbid: string, lines: seq<Line>, anns: seq<Annotated>)
    requires anns != []
    ensures BlockLines(WithLines(lines, anns)) == lines + BlockLines(anns)
    ensures HeadersFor(f.name, bbid, WithLines(lines, anns)) == HeadersFor(f.name, bbid, anns)
  {
    LinesInFront(f, lines, anns);
    assert WithLines(lines, anns)[1..] == anns[1..];
  }

  /** The lines of a block: phis first, in front of the first other instruction. */
  lemma TogetherHeaders(f: Func, bbid: string, phis: seq<Annotated>, lines: seq<Line>, anns: seq<Annotated>)
    requires Quiet(phis) && anns != []
    requires HeaderLines(lines) == HeadersFor(f.name, bbid, phis)
    requires HeaderLines(BlockLines(anns)) == HeadersFor(f.name, bbid, anns)
    ensures var all := phis + WithLines(lines, anns);
            HeaderLines(BlockLines(all)) == HeadersFor(f.name, bbid, all)
  {
    QuietThen(f, phis, WithLines(lines, anns));
    WithLinesHeaders(f, bbid, lines, anns);
    HeaderLinesAppend(lines, BlockLines(anns));
    HeadersForAppend(f.name, bbid, phis, WithLines(lines, anns));
  }

  lemma AnnotatedHeaders(f: Func, varNames: map<int, string>, b: Block)
    requires PhiCount(b.insts) < |b.insts|
    ensures var anns := AnnotateBlock(f.name, varNames, b).0;
            HeaderLines(BlockLines(anns)) == HeadersFor(f.name, BlockId(b.ref), anns)
  {
    var bbid, n, env := BlockId(b.ref), PhiCount(b.insts), Env(varNames, 0);
    var phis, others := b.insts[..n], b.insts[n..];
    PhiHeaders(f.name, bbid, env, phis);
    OtherHeaders(f.name, bbid, AfterPhis(bbid, env, phis), others);
    TogetherHeaders(f, bbid, PhiAnnotations(bbid, env, phis), AllPhiLines(f.name, bbid, env, phis),
                    AnnotateAll(f.name, bbid, AfterPhis(bbid, env, phis), others).0);
  }

  // ---------- the code of a block ----------

  lemma LineHeader(l: Line)
    ensures LoggedHeaders(Nodes(LineCodes(l))) == HeaderLines([l])
  {
    var nodes := Nodes(LineCodes(l));
    if ShowsVector(l) {
      var key := KeyOf(TypeOf(l.value.operand));
      assert nodes == [Inserted(StoreBuffer(key, l.value.operand))] + [Inserted(LogBuffer(l, key))];
      LoggedAppend([Inserted(StoreBuffer(key, l.value.operand))], [Inserted(LogBuffer(l, key))]);
      assert LoggedHeaders([Inserted(LogBuffer(l, key))]) == HeaderLines([l]) + LoggedHeaders([]);
    } else {
      assert nodes[1..] == [];
    }
  }

  lemma {:induction false} CodesHeaders(ls: seq<Line>)
    ensures LoggedHeaders(Nodes(Codes(ls))) == HeaderLines(ls)
    decreases ls
  {
    if ls != [] {
      LineHeader(ls[0]);
      CodesHeaders(ls[1..]);
      NodesAppend(LineCodes(ls[0]), Codes(ls[1..]));
      LoggedAppend(Nodes(LineCodes(ls[0])), Nodes(Codes(ls[1..])));
      HeaderLinesAppend([ls[0]], ls[1..]);
      assert [ls[0]] + ls[1..] == ls;
    }
  }

  /** Code that logs nothing: status updates, entries of sessions, allocations. */
  lemma {:induction false} SilentCodes(nodes: seq<Node>)
    requires forall n <- nodes :: n.Inserted? && !n.code.Log? && !n.code.LogBuffer?
    ensures LoggedHeaders(nodes) == []
    decreases nodes
  {
    if nodes != [] {
      assert nodes[0] in nodes && forall n <- nodes[1..] :: n in nodes;
      SilentCodes(nodes[1..]);
    }
  }

  lemma AroundInst(before: seq<Node>, ret: seq<Node>, i: Inst, after: seq<Node>)
    requires LoggedHeaders(ret) == []
    ensures LoggedHeaders(before + ret + [Original(i)] + after) == LoggedHeaders(before) + LoggedHeaders(after)
  {
    assert [Original(i)][1..] == [] && LoggedHeaders([Original(i)]) == [];
    LoggedAppend(before + ret + [Original(i)], after);
    LoggedAppend(before + ret, [Original(i)]);
    LoggedAppend(before, ret);
  }

  lemma InstHeaders(f: Func, a: Annotated)
    ensures LoggedHeaders(InstNodes(f, a)) == HeaderLines(a.before) + HeaderLines(a.after)
  {
    CodesHeaders(a.before);
    CodesHeaders(a.after);
    SilentCodes(Nodes(BeforeReturn(f, a)));
    NodesAppend(Codes(a.before), BeforeReturn(f, a));
    AroundInst(Nodes(Codes(a.before)), Nodes(BeforeReturn(f, a)), a.inst, Nodes(Codes(a.after)));
  }

  lemma {:induction false} BlockHeaders(f: Func, anns: seq<Annotated>)
    ensures LoggedHeaders(BlockNodes(f, anns)) == HeaderLines(BlockLines(anns))
    decreases anns
  {
    if anns != [] {
      InstHeaders(f, anns[0]);
      BlockHeaders(f, anns[1..]);
      LoggedAppend(InstNodes(f, anns[0]), BlockNodes(f, anns[1..]));
      HeaderLinesAppend(anns[0].before + anns[0].after, BlockLines(anns[1..]));
      HeaderLinesAppend(anns[0].before, anns[0].after);
    }
  }

  lemma {:induction false} ParamLinesNoHeaders(f: Func, k: nat)
    ensures NoHeaders(ParamLinesFrom(f, k))
    decreases |f.params| - k
  {
    if k < |f.params| {
      ParamLinesNoHeaders(f, k + 1);
    }
  }

  lemma SilentFront(a: seq<Node>, b: seq<Node>, body: seq<Node>)
    requires LoggedHeaders(a) == [] && LoggedHeaders(b) == []
    ensures LoggedHeaders(a + (b + body)) == LoggedHeaders(body)
  {
    LoggedAppend(a, b + body);
    LoggedAppend(b, body);
  }

  lemma EntryCodesHeaders(f: Func)
    ensures LoggedHeaders(Nodes(EntryCodes(f))) == []
  {
    SilentCodes(Nodes(EntryUpdates(f)));
    ParamLinesNoHeaders(f, 0);
    NoHeaderLines(EntryLines(f));
    CodesHeaders(EntryLines(f));
    NodesAppend(EntryUpdates(f), Codes(EntryLines(f)));
    LoggedAppend(Nodes(EntryUpdates(f)), Nodes(Codes(EntryLines(f))));
  }

  /** Buffers and the code at the entry log no header. */
  lemma EntryHeaders(f: Func, body: seq<Node>)
    ensures LoggedHeaders(Allocations(BuffersOf(f)) + (Nodes(EntryCodes(f)) + body)) == LoggedHeaders(body)
  {
    SilentCodes(Allocations(BuffersOf(f)));
    EntryCodesHeaders(f);
    SilentFront(Allocations(BuffersOf(f)), Nodes(EntryCodes(f)), body);
  }

  lemma BareHeaders(f: Func, insts: seq<Inst>)
    ensures LoggedHeaders(BlockNodes(f, Bare(insts))) == []
  {
    BlockHeaders(f, Bare(insts));
    BareNodes(f, insts);
  }

  /**
   The header lines of an instrumented block, in order, are those of its phis and then of its other
   traced instructions: one for each of them, with the id it got. A function the pass does not
   instrument has none.
   */
  lemma HeadersOfBlock(f: Func, k: nat)
    requires k < |f.blocks| && PhiCount(f.blocks[k].insts) < |f.blocks[k].insts|
    ensures if !f.supported || f.skipBody then LoggedHeaders(Instrument(f)[k]) == []
            else
              && Identified(AnnotateFunction(f)[k])
              && LoggedHeaders(Instrument(f)[k]) == HeadersFor(f.name, BlockId(f.blocks[k].ref), AnnotateFunction(f)[k])
              && |LoggedHeaders(Instrument(f)[k])| == TracedCount(f.blocks[k].insts)
  {
    var b, anns := f.blocks[k], AnnotateFunction(f)[k];
    if k == 0 {
      EntryHeaders(f, BlockNodes(f, anns));
    }
    if !f.supported || f.skipBody {
      BareHeaders(f, b.insts);
    } else {
      var names := BlockOf(f.name, map[], f.blocks, k);
      AnnotatedHeaders(f, names, b);
      BlockIdentified(f.name, names, b);
      BlockHeaders(f, anns);
      AnnotateFunctionInsts(f, k);
      HeadersForCount(f.name, BlockId(b.ref), anns);
    }
  }
}
