/**
 The static ids of the instructions of a whole function (full-trace/full_trace.cpp:787-814,
 401-405): which ids instructions without a value get, and when they are all different.
 */
module InstIds {
  import opened Wrappers
  import opened Sequences
  import opened StaticIds
  import opened Ir
  import opened Annotations

  /** An instruction that the pass gives an id and that neither has a name nor a slot. */
  predicate Valueless(i: Inst) {
    !i.kind.Invoke? && i.name.None? && i.slot == -1
  }

  /** Slots as the slot tracker gives them: one for every unnamed value, -1 for anything else.
      Phis and allocas have values. */
  predicate Slotted(i: Inst) {
    && i.slot >= -1
    && (!i.ty.VoidT? && i.name.None? ==> i.slot >= 0)
    && (i.kind.Phi? || i.kind.Alloca? ==> !i.ty.VoidT?)
  }

  /** A bitcast without a slot - because it has a name - of a named pointer. */
  predicate NamedPointerBitcast(i: Inst) {
    i.kind.Bitcast? && !i.ty.VoidT? && i.slot == -1
    && |i.args| > 0 && TypeOf(i.args[0]).PtrT? && NameOf(i.args[0]).Some?
  }

  ghost predicate AllSlotted(insts: seq<Inst>) {
    forall i <- insts :: Slotted(i)
  }

  ghost predicate NoNamedBitcast(insts: seq<Inst>) {
    forall i <- insts :: !NamedPointerBitcast(i)
  }

  /** The ids of the instructions without a value, in order. */
  function ValuelessIds(anns: seq<Annotated>): seq<string>
    decreases anns
  {
    if anns == [] then []
    else (if Valueless(anns[0].inst) && anns[0].id.Some? then [anns[0].id.value] else []) + ValuelessIds(anns[1..])
  }

  function ValuelessCount(insts: seq<Inst>): nat
    decreases insts
  {
    if insts == [] then 0 else (if Valueless(insts[0]) then 1 else 0) + ValuelessCount(insts[1..])
  }

  /** bbid-from, bbid-(from + 1), ... */
  function Counted(bbid: string, from: nat, n: nat): seq<string> {
    seq(n, k requires 0 <= k < n => ValuelessId(bbid, from + k))
  }

  // ---------- within a block ----------

  /** An instruction without a value gets a fresh id exactly when slot -1 has no name; otherwise
      it goes by that name and nothing is counted. */
  lemma OneId(func: string, bbid: string, env: Env, i: Inst, later: seq<Inst>)
    requires Slotted(i)
    ensures var (a, next) := Annotate(func, bbid, env, i, later);
            && (Valueless(i) && -1 !in env.varNames ==>
                  a.id == Some(ValuelessId(bbid, env.instc)) && next.instc == env.instc + 1)
            && (Valueless(i) && -1 in env.varNames ==> a.id == Some(env.varNames[-1]) && next.instc == env.instc)
            && (!Valueless(i) ==> next.instc == env.instc)
            && (-1 in next.varNames <==> -1 in env.varNames || NamedPointerBitcast(i))
            && (-1 in env.varNames ==> next.varNames[-1] == env.varNames[-1])
  {
  }

  /** Without a name for slot -1 the ids of a block count up. */
  lemma {:induction false} IdsCount(func: string, bbid: string, env: Env, insts: seq<Inst>)
    requires AllSlotted(insts) && NoNamedBitcast(insts) && -1 !in env.varNames
    ensures var (anns, last) := AnnotateAll(func, bbid, env, insts);
            && ValuelessIds(anns) == Counted(bbid, env.instc, ValuelessCount(insts))
            && -1 !in last.varNames
    decreases insts
  {
    if insts != [] {
      assert insts[0] in insts;
      OneId(func, bbid, env, insts[0], insts[1..]);
      var (a, next) := Annotate(func, bbid, env, insts[0], insts[1..]);
      IdsCount(func, bbid, next, insts[1..]);
      FirstValueless(a, AnnotateAll(func, bbid, next, insts[1..]).0);
      NextCount(bbid, env.instc, ValuelessCount(insts[1..]));
    }
  }

  lemma FirstValueless(a: Annotated, rest: seq<Annotated>)
    ensures ValuelessIds([a] + rest)
            == (if Valueless(a.inst) && a.id.Some? then [a.id.value] else []) + ValuelessIds(rest)
  {
    assert ([a] + rest)[1..] == rest;
  }

  lemma NextCount(bbid: string, from: nat, n: nat)
    ensures Counted(bbid, from, n + 1) == [ValuelessId(bbid, from)] + Counted(bbid, from + 1, n)
  {
  }

  /** Once slot -1 has a name, every later instruction without a value has that name as its id. */
  lemma {:induction false} IdsClash(func: string, bbid: string, env: Env, insts: seq<Inst>)
    requires AllSlotted(insts) && -1 in env.varNames
    ensures var (anns, last) := AnnotateAll(func, bbid, env, insts);
            && ValuelessIds(anns) == seq(ValuelessCount(insts), _ => env.varNames[-1])
            && -1 in last.varNames && last.varNames[-1] == env.varNames[-1] && last.instc == env.instc
    decreases insts
  {
    if insts != [] {
      assert insts[0] in insts;
      OneId(func, bbid, env, insts[0], insts[1..]);
      var (a, next) := Annotate(func, bbid, env, insts[0], insts[1..]);
      IdsClash(func, bbid, next, insts[1..]);
      var rest := AnnotateAll(func, bbid, next, insts[1..]).0;
      assert AnnotateAll(func, bbid, env, insts).0 == [a] + rest;
      assert ([a] + rest)[1..] == rest;
    }
  }

  lemma {:induction false} PhisCountNothing(bbid: string, env: Env, phis: seq<Inst>)
    requires AllSlotted(phis) && (forall i <- phis :: i.kind.Phi?)
    ensures AfterPhis(bbid, env, phis) == env
    decreases phis
  {
    if phis != [] {
      assert phis[0] in phis;
      PhisCountNothing(bbid, AfterPhi(bbid, env, phis[0]), phis[1..]);
    }
  }

  /** Phis have values. */
  lemma {:induction false} PhiIdsApart(bbid: string, env: Env, phis: seq<Inst>, rest: seq<Annotated>)
    requires AllSlotted(phis) && forall i <- phis :: i.kind.Phi?
    ensures ValuelessIds(PhiAnnotations(bbid, env, phis) + rest) == ValuelessIds(rest)
    decreases phis
  {
    var all := PhiAnnotations(bbid, env, phis) + rest;
    if phis == [] {
      assert all == rest;
    } else {
      assert phis[0] in phis;
      var next := AfterPhi(bbid, env, phis[0]);
      assert all[0].inst == phis[0] && all[1..] == PhiAnnotations(bbid, next, phis[1..]) + rest;
      PhiIdsApart(bbid, next, phis[1..], rest);
    }
  }

  lemma LinesKeepIds(lines: seq<Line>, anns: seq<Annotated>)
    ensures ValuelessIds(WithLines(lines, anns)) == ValuelessIds(anns)
  {
    if anns != [] {
      assert WithLines(lines, anns)[1..] == anns[1..];
    }
  }

  /** The instructions of a block that follow its phis. */
  function Later(b: Block): seq<Inst> {
    b.insts[PhiCount(b.insts)..]
  }

  lemma BlockIdsCount(func: string, varNames: map<int, string>, b: Block)
    requires AllSlotted(b.insts) && NoNamedBitcast(b.insts) && -1 !in varNames
    ensures var (anns, names) := AnnotateBlock(func, varNames, b);
            && ValuelessIds(anns) == Counted(BlockId(b.ref), 0, ValuelessCount(Later(b)))
            && -1 !in names
  {
    var bbid, n, env := BlockId(b.ref), PhiCount(b.insts), Env(varNames, 0);
    var phis := b.insts[..n];
    PhisCountNothing(bbid, env, phis);
    IdsCount(func, bbid, env, Later(b));
    var anns := AnnotateAll(func, bbid, env, Later(b)).0;
    LinesKeepIds(AllPhiLines(func, bbid, env, phis), anns);
    PhiIdsApart(bbid, env, phis, WithLines(AllPhiLines(func, bbid, env, phis), anns));
  }

  // ---------- within a function ----------

  ghost predicate GoodIds(bs: seq<Block>) {
    forall b <- bs :: AllSlotted(b.insts) && NoNamedBitcast(b.insts)
  }

  lemma BlocksIdsCount(func: string, varNames: map<int, string>, bs: seq<Block>, k: nat)
    requires k < |bs| && GoodIds(bs) && -1 !in varNames
    ensures ValuelessIds(AnnotateBlocks(func, varNames, bs)[k])
            == Counted(BlockId(bs[k].ref), 0, ValuelessCount(Later(bs[k])))
  {
    var good := (names: map<int, string>) => -1 !in names;
    forall names: map<int, string>, i: nat | good(names) && i < |bs|
      ensures good(BlockStep(func)(names, bs[i]).1)
    {
      assert bs[i] in bs;
      BlockIdsCount(func, names, bs[i]);
    }
    var names := AccumulateAt(BlockStep(func), varNames, bs, k, good);
    assert bs[k] in bs;
    BlockIdsCount(func, names, bs[k]);
  }

  /** In every block of an instrumented function without a named bitcast of a named pointer the
      ids of the instructions without a value are bbid-0, bbid-1, and so on. */
  lemma FunctionIdsCount(f: Func, k: nat)
    requires f.supported && !f.skipBody && GoodIds(f.blocks) && k < |f.blocks|
    ensures ValuelessIds(AnnotateFunction(f)[k])
         == Counted(BlockId(f.blocks[k].ref), 0, ValuelessCount(Later(f.blocks[k])))
  {
    BlocksIdsCount(f.name, map[], f.blocks, k);
  }

  /** No two blocks have the same id (`StaticIds.BlockIdsEqual` says when they do). */
  ghost predicate DistinctBlocks(bs: seq<Block>) {
    forall k, l :: 0 <= k < l < |bs| ==> BlockId(bs[k].ref) != BlockId(bs[l].ref)
  }

  lemma SameBlock(bs: seq<Block>, k: nat, l: nat)
    requires DistinctBlocks(bs) && k < |bs| && l < |bs| && BlockId(bs[k].ref) == BlockId(bs[l].ref)
    ensures k == l
  {
  }

  /**
   The ids of the instructions without a value are different throughout the function: one id
   belongs to one block and to one position among the instructions without a value there.
   */
  lemma FunctionIdsDistinct(f: Func, k: nat, i: nat, l: nat, j: nat)
    requires f.supported && !f.skipBody && GoodIds(f.blocks) && DistinctBlocks(f.blocks)
    requires k < |f.blocks| && i < |ValuelessIds(AnnotateFunction(f)[k])|
    requires l < |f.blocks| && j < |ValuelessIds(AnnotateFunction(f)[l])|
    requires ValuelessIds(AnnotateFunction(f)[k])[i] == ValuelessIds(AnnotateFunction(f)[l])[j]
    ensures k == l && i == j
  {
    FunctionIdsCount(f, k);
    FunctionIdsCount(f, l);
    var a, b := f.blocks[k].ref, f.blocks[l].ref;
    ValuelessIdsDistinct(BlockId(a), i, BlockId(b), j);
    SameBlock(f.blocks, k, l);
  }

  // ---------- with named bitcasts ----------

  /** The name that slot -1 gets: that of the pointer in the first such bitcast. */
  function PointerName(insts: seq<Inst>): Option<string>
    decreases insts
  {
    if insts == [] then None
    else if NamedPointerBitcast(insts[0]) then NameOf(insts[0].args[0])
    else PointerName(insts[1..])
  }

  /** How many instructions without a value come before the first such bitcast. */
  function Fresh(insts: seq<Inst>): (n: nat)
    ensures n <= ValuelessCount(insts)
    decreases insts
  {
    if insts == [] || NamedPointerBitcast(insts[0]) then 0
    else (if Valueless(insts[0]) then 1 else 0) + Fresh(insts[1..])
  }

  function Copies(n: nat, id: string): seq<string> {
    seq(n, _ => id)
  }

  /** The ids of a list of instructions, `shadow` being the name of slot -1 before it. */
  function ListIds(bbid: string, from: nat, shadow: Option<string>, insts: seq<Inst>): seq<string> {
    if shadow.Some? then Copies(ValuelessCount(insts), shadow.value)
    else Counted(bbid, from, Fresh(insts)) + Copies(ValuelessCount(insts) - Fresh(insts), PointerName(insts).GetOr(""))
  }

  function NameOfMinusOne(varNames: map<int, string>): Option<string> {
    if -1 in varNames then Some(varNames[-1]) else None
  }

  function ShadowAfter(shadow: Option<string>, insts: seq<Inst>): Option<string> {
    if shadow.Some? then shadow else PointerName(insts)
  }

  lemma OneShadow(func: string, bbid: string, env: Env, i: Inst, later: seq<Inst>)
    requires Slotted(i) && NamedPointerBitcast(i) && -1 !in env.varNames
    ensures NameOfMinusOne(Annotate(func, bbid, env, i, later).1.varNames) == NameOf(i.args[0])
  {
  }

  lemma CountedCons(bbid: string, from: nat, n: nat)
    requires n > 0
    ensures Counted(bbid, from, n) == [ValuelessId(bbid, from)] + Counted(bbid, from + 1, n - 1)
  {
  }

  lemma ListIdsCons(bbid: string, from: nat, insts: seq<Inst>)
    requires insts != [] && Slotted(insts[0]) && !NamedPointerBitcast(insts[0])
    ensures ListIds(bbid, from, None, insts) ==
            if Valueless(insts[0]) then [ValuelessId(bbid, from)] + ListIds(bbid, from + 1, None, insts[1..])
            else ListIds(bbid, from, None, insts[1..])
  {
    if Valueless(insts[0]) {
      CountedCons(bbid, from, Fresh(insts));
    }
  }

  /** The ids of an instruction list: counted up to the first named bitcast of a named pointer,
      and then the name of that pointer. */
  lemma {:induction false} IdsShadowed(func: string, bbid: string, env: Env, insts: seq<Inst>)
    requires AllSlotted(insts)
    ensures var (anns, last) := AnnotateAll(func, bbid, env, insts);
            && ValuelessIds(anns) == ListIds(bbid, env.instc, NameOfMinusOne(env.varNames), insts)
            && NameOfMinusOne(last.varNames) == ShadowAfter(NameOfMinusOne(env.varNames), insts)
    decreases insts
  {
    if -1 in env.varNames {
      IdsClash(func, bbid, env, insts);
    } else if insts != [] {
      assert insts[0] in insts;
      OneId(func, bbid, env, insts[0], insts[1..]);
      var (a, next) := Annotate(func, bbid, env, insts[0], insts[1..]);
      var rest := AnnotateAll(func, bbid, next, insts[1..]).0;
      assert AnnotateAll(func, bbid, env, insts).0 == [a] + rest && ([a] + rest)[1..] == rest;
      IdsShadowed(func, bbid, next, insts[1..]);
      if NamedPointerBitcast(insts[0]) {
        OneShadow(func, bbid, env, insts[0], insts[1..]);
      }
      ShadowedCons(bbid, env, next, insts);
    }
  }

  /** The ids of a list from those of its rest. */
  lemma ShadowedCons(bbid: string, env: Env, next: Env, insts: seq<Inst>)
    requires insts != [] && Slotted(insts[0]) && -1 !in env.varNames
    requires next.instc == env.instc + (if Valueless(insts[0]) then 1 else 0)
    requires NamedPointerBitcast(insts[0]) ==> NameOfMinusOne(next.varNames) == NameOf(insts[0].args[0])
    requires !NamedPointerBitcast(insts[0]) ==> -1 !in next.varNames
    ensures ListIds(bbid, env.instc, None, insts) ==
            (if Valueless(insts[0]) then [ValuelessId(bbid, env.instc)] else [])
            + ListIds(bbid, next.instc, NameOfMinusOne(next.varNames), insts[1..])
  {
    if NamedPointerBitcast(insts[0]) {
      assert Counted(bbid, env.instc, 0) == [];
    } else {
      ListIdsCons(bbid, env.instc, insts);
    }
  }

  // ---------- the whole function ----------

  /** All instructions but phis, in layout order. */
  function LayoutOrder(bs: seq<Block>): seq<Inst>
    decreases bs
  {
    if bs == [] then [] else Later(bs[0]) + LayoutOrder(bs[1..])
  }

  /** All ids of instructions without a value, in layout order. */
  function AllIds(blocks: seq<seq<Annotated>>): seq<string>
    decreases blocks
  {
    if blocks == [] then [] else ValuelessIds(blocks[0]) + AllIds(blocks[1..])
  }

  /** What these ids should be: counted from 0 in every block. */
  function CountedIds(bs: seq<Block>): (ids: seq<string>)
    decreases bs
  {
    if bs == [] then [] else Counted(BlockId(bs[0].ref), 0, ValuelessCount(Later(bs[0]))) + CountedIds(bs[1..])
  }

  lemma {:induction false} CountAppend(a: seq<Inst>, b: seq<Inst>)
    ensures ValuelessCount(a + b) == ValuelessCount(a) + ValuelessCount(b)
    ensures PointerName(a + b) == ShadowAfter(PointerName(a), b)
    ensures Fresh(a + b) == if PointerName(a).Some? then Fresh(a) else ValuelessCount(a) + Fresh(b)
    decreases a
  {
    if a == [] {
      assert a + b == b;
    } else {
      assert (a + b)[1..] == a[1..] + b;
      CountAppend(a[1..], b);
      if PointerName(a).None? {
        AllFresh(a);
      }
    }
  }

  /** Only a bitcast of a pointer with a name makes an instruction shadowed. */
  lemma {:induction false} AllFresh(insts: seq<Inst>)
    requires PointerName(insts).None?
    ensures Fresh(insts) == ValuelessCount(insts)
    decreases insts
  {
    if insts != [] {
      AllFresh(insts[1..]);
    }
  }

  lemma {:induction false} CountedIdsLength(bs: seq<Block>)
    ensures |CountedIds(bs)| == ValuelessCount(LayoutOrder(bs))
    decreases bs
  {
    if bs != [] {
      CountedIdsLength(bs[1..]);
      CountAppend(Later(bs[0]), LayoutOrder(bs[1..]));
    }
  }

  ghost predicate BlocksSlotted(bs: seq<Block>) {
    forall b <- bs :: AllSlotted(b.insts)
  }

  /** What annotating one block does to ids and to the name of slot -1. */
  ghost predicate BlockShadowed(varNames: map<int, string>, b: Block, anns: seq<Annotated>, names: map<int, string>) {
    && ValuelessIds(anns) == ListIds(BlockId(b.ref), 0, NameOfMinusOne(varNames), Later(b))
    && NameOfMinusOne(names) == ShadowAfter(NameOfMinusOne(varNames), Later(b))
  }

  lemma BlockIdsShadowed(func: string, varNames: map<int, string>, b: Block)
    requires AllSlotted(b.insts)
    ensures var (anns, names) := AnnotateBlock(func, varNames, b);
            BlockShadowed(varNames, b, anns, names)
  {
    var bbid, n, env := BlockId(b.ref), PhiCount(b.insts), Env(varNames, 0);
    var phis := b.insts[..n];
    PhisCountNothing(bbid, env, phis);
    IdsShadowed(func, bbid, env, Later(b));
    var anns := AnnotateAll(func, bbid, env, Later(b)).0;
    LinesKeepIds(AllPhiLines(func, bbid, env, phis), anns);
    PhiIdsApart(bbid, env, phis, WithLines(AllPhiLines(func, bbid, env, phis), anns));
  }

  type Step = (map<int, string>, Block) -> (seq<Annotated>, map<int, string>)

  ghost predicate ShadowStep(step: Step, names: map<int, string>, b: Block) {
    BlockShadowed(names, b, step(names, b).0, step(names, b).1)
  }

  /** What the ids of blocks are, `shadow` being the name of slot -1 before them. */
  function BlocksIds(shadow: Option<string>, bs: seq<Block>): seq<string> {
    var insts := LayoutOrder(bs);
    CountedIdsLength(bs);
    if shadow.Some? then Copies(ValuelessCount(insts), shadow.value)
    else CountedIds(bs)[..Fresh(insts)] + Copies(ValuelessCount(insts) - Fresh(insts), PointerName(insts).GetOr(""))
  }

  lemma CopiesAppend(m: nat, n: nat, id: string)
    ensures Copies(m + n, id) == Copies(m, id) + Copies(n, id)
  {
  }

  lemma CountedPrefix(bbid: string, m: nat, n: nat)
    requires m <= n
    ensures Counted(bbid, 0, n)[..m] == Counted(bbid, 0, m)
  {
  }

  lemma PrefixOfSum(a: seq<string>, b: seq<string>, k: nat)
    requires k <= |a| + |b|
    ensures (a + b)[..k] == if k <= |a| then a[..k] else a + b[..k - |a|]
  {
  }

  /** A block in which slot -1 gets its name. */
  lemma ShadowingBlock(bs: seq<Block>)
    requires bs != [] && PointerName(Later(bs[0])).Some?
    ensures BlocksIds(None, bs) ==
            ListIds(BlockId(bs[0].ref), 0, None, Later(bs[0])) + BlocksIds(PointerName(Later(bs[0])), bs[1..])
  {
    var first, rest := Later(bs[0]), LayoutOrder(bs[1..]);
    var counted, name := Counted(BlockId(bs[0].ref), 0, ValuelessCount(first)), PointerName(first).value;
    CountAppend(first, rest);
    CountedIdsLength(bs[1..]);
    PrefixOfSum(counted, CountedIds(bs[1..]), Fresh(first));
    CountedPrefix(BlockId(bs[0].ref), Fresh(first), ValuelessCount(first));
    CopiesAppend(ValuelessCount(first) - Fresh(first), ValuelessCount(rest), name);
    Associate(Counted(BlockId(bs[0].ref), 0, Fresh(first)), Copies(ValuelessCount(first) - Fresh(first), name),
              Copies(ValuelessCount(rest), name));
  }

  /** A block in which it does not. */
  lemma CountingBlock(bs: seq<Block>)
    requires bs != [] && PointerName(Later(bs[0])).None?
    ensures BlocksIds(None, bs) == ListIds(BlockId(bs[0].ref), 0, None, Later(bs[0])) + BlocksIds(None, bs[1..])
  {
    var first, rest := Later(bs[0]), LayoutOrder(bs[1..]);
    var counted, more := Counted(BlockId(bs[0].ref), 0, ValuelessCount(first)), CountedIds(bs[1..]);
    CountAppend(first, rest);
    CountedIdsLength(bs[1..]);
    AllFresh(first);
    var k, n := Fresh(rest), ValuelessCount(rest) - Fresh(rest);
    PrefixOfSum(counted, more, |counted| + k);
    assert more[..|counted| + k - |counted|] == more[..k];
    Associate(counted, more[..k], Copies(n, PointerName(rest).GetOr("")));
    assert counted + Copies(0, "") == counted;
  }

  /** The ids of a block and of the blocks after it. */
  lemma BlocksIdsCons(shadow: Option<string>, bs: seq<Block>)
    requires bs != []
    ensures BlocksIds(shadow, bs) ==
            ListIds(BlockId(bs[0].ref), 0, shadow, Later(bs[0])) + BlocksIds(ShadowAfter(shadow, Later(bs[0])), bs[1..])
  {
    if shadow.Some? {
      CountAppend(Later(bs[0]), LayoutOrder(bs[1..]));
      CopiesAppend(ValuelessCount(Later(bs[0])), ValuelessCount(LayoutOrder(bs[1..])), shadow.value);
    } else if PointerName(Later(bs[0])).Some? {
      ShadowingBlock(bs);
    } else {
      CountingBlock(bs);
    }
  }

  lemma {:induction false} StepIds(step: Step, names: map<int, string>, bs: seq<Block>)
    requires forall u: map<int, string>, i: nat :: i < |bs| ==> ShadowStep(step, u, bs[i])
    ensures AllIds(Accumulate(step, names, bs)) == BlocksIds(NameOfMinusOne(names), bs)
    decreases bs
  {
    if bs != [] {
      assert ShadowStep(step, names, bs[0]);
      forall u: map<int, string>, i: nat | i < |bs[1..]|
        ensures ShadowStep(step, u, bs[1..][i])
      {
        assert bs[1..][i] == bs[i + 1];
      }
      StepIds(step, step(names, bs[0]).1, bs[1..]);
      BlocksIdsCons(NameOfMinusOne(names), bs);
    }
  }

  /** How many instructions without a value come after a named bitcast of a named pointer. */
  function ShadowedCount(f: Func): nat {
    ValuelessCount(LayoutOrder(f.blocks)) - Fresh(LayoutOrder(f.blocks))
  }

  /** The ids that are counted: those of the instructions before the first such bitcast. */
  function CountedPart(f: Func): seq<string> {
    CountedIdsLength(f.blocks);
    CountedIds(f.blocks)[..Fresh(LayoutOrder(f.blocks))]
  }

  /** The name that all other instructions without a value go by. */
  function ShadowName(f: Func): string {
    PointerName(LayoutOrder(f.blocks)).GetOr("")
  }

  /**
   The ids of the instructions without a value in a whole function, in layout order: counted in
   each block up to the first named bitcast of a named pointer, and from there on, also in all
   later blocks, the name of that pointer.
   */
  lemma FunctionIds(f: Func)
    requires f.supported && !f.skipBody && BlocksSlotted(f.blocks)
    ensures AllIds(AnnotateFunction(f)) == CountedPart(f) + Copies(ShadowedCount(f), ShadowName(f))
  {
    var step := BlockStep(f.name);
    forall u: map<int, string>, i: nat | i < |f.blocks|
      ensures ShadowStep(step, u, f.blocks[i])
    {
      assert f.blocks[i] in f.blocks;
      BlockIdsShadowed(f.name, u, f.blocks[i]);
    }
    StepIds(step, map[], f.blocks);
  }

  ghost predicate Distinct(ids: seq<string>) {
    forall i, j :: 0 <= i < j < |ids| ==> ids[i] != ids[j]
  }

  lemma CountedAt(bbid: string, n: nat, rest: seq<string>, i: nat)
    requires i < n + |rest|
    ensures |Counted(bbid, 0, n)| == n
    ensures (Counted(bbid, 0, n) + rest)[i] == if i < n then ValuelessId(bbid, i) else rest[i - n]
  {
    if i < n {
      assert (Counted(bbid, 0, n) + rest)[i] == Counted(bbid, 0, n)[i];
    }
  }

  /** For each of some block ids, so many counted ids. */
  function CountedParts(parts: seq<(string, nat)>): seq<string>
    decreases parts
  {
    if parts == [] then [] else Counted(parts[0].0, 0, parts[0].1) + CountedParts(parts[1..])
  }

  function Parts(bs: seq<Block>): seq<(string, nat)> {
    seq(|bs|, k requires 0 <= k < |bs| => (BlockId(bs[k].ref), ValuelessCount(Later(bs[k]))))
  }

  lemma {:induction false} PartsOfBlocks(bs: seq<Block>)
    ensures CountedIds(bs) == CountedParts(Parts(bs))
    decreases bs
  {
    if bs != [] {
      assert Parts(bs)[1..] == Parts(bs[1..]);
      PartsOfBlocks(bs[1..]);
    }
  }

  /** Where a counted id comes from. */
  lemma {:induction false} CountedFrom(parts: seq<(string, nat)>, i: nat) returns (k: nat, n: nat)
    requires i < |CountedParts(parts)|
    ensures k < |parts| && CountedParts(parts)[i] == ValuelessId(parts[k].0, n) && (k == 0 ==> n == i)
    decreases parts
  {
    var (bbid, count) := parts[0];
    CountedAt(bbid, count, CountedParts(parts[1..]), i);
    if i < count {
      k, n := 0, i;
    } else {
      k, n := CountedFrom(parts[1..], i - count);
      k := k + 1;
    }
  }

  lemma IdsDiffer(bb1: string, k1: nat, bb2: string, k2: nat)
    requires bb1 != bb2 || k1 != k2
    ensures ValuelessId(bb1, k1) != ValuelessId(bb2, k2)
  {
    if ValuelessId(bb1, k1) == ValuelessId(bb2, k2) {
      ValuelessIdsDistinct(bb1, k1, bb2, k2);
    }
  }

  ghost predicate DistinctParts(parts: seq<(string, nat)>) {
    forall i, j :: 0 <= i < j < |parts| ==> parts[i].0 != parts[j].0
  }

  lemma {:induction false} CountedPartsDistinct(parts: seq<(string, nat)>)
    requires DistinctParts(parts)
    ensures Distinct(CountedParts(parts))
    decreases parts
  {
    if parts != [] {
      var first, rest := Counted(parts[0].0, 0, parts[0].1), CountedParts(parts[1..]);
      CountedPartsDistinct(parts[1..]);
      forall i, j | 0 <= i < j < |first + rest|
        ensures (first + rest)[i] != (first + rest)[j]
      {
        if i < |first| {
          FirstDiffers(parts, i, j);
        } else {
          assert rest[i - |first|] != rest[j - |first|];
        }
      }
    }
  }

  lemma FirstDiffers(parts: seq<(string, nat)>, i: nat, j: nat)
    requires parts != [] && DistinctParts(parts) && i < parts[0].1 && i < j < |CountedParts(parts)|
    ensures CountedParts(parts)[i] != CountedParts(parts)[j]
  {
    CountedAt(parts[0].0, parts[0].1, CountedParts(parts[1..]), i);
    var k, n := CountedFrom(parts, j);
    IdsDiffer(parts[0].0, i, parts[k].0, n);
  }

  /** With different block ids all counted ids are different. */
  lemma CountedIdsDistinct(bs: seq<Block>)
    requires DistinctBlocks(bs)
    ensures Distinct(CountedIds(bs))
  {
    PartsOfBlocks(bs);
    CountedPartsDistinct(Parts(bs));
  }

  lemma DistinctPrefix(ids: seq<string>, n: nat)
    requires Distinct(ids) && n <= |ids|
    ensures Distinct(ids[..n])
  {
  }

  /** A list of different ids followed by copies of one more. */
  lemma DistinctSum(ids: seq<string>, n: nat, name: string)
    requires Distinct(ids)
    ensures Distinct(ids + Copies(n, name)) <==> n <= 1 && (n == 1 ==> name !in ids)
  {
    var all := ids + Copies(n, name);
    if n >= 2 {
      assert all[|ids|] == all[|ids| + 1];
    }
    if n == 1 && name in ids {
      var i :| 0 <= i < |ids| && ids[i] == name;
      assert all[i] == all[|ids|];
    }
  }

  /**
   Exactly when the ids are different throughout a function whose blocks have different ids: at
   most one instruction without a value comes after a named bitcast of a named pointer, and the
   name of that pointer is none of the ids before it.
   */
  lemma IdsDistinctIff(f: Func)
    requires f.supported && !f.skipBody && BlocksSlotted(f.blocks) && DistinctBlocks(f.blocks)
    ensures Distinct(AllIds(AnnotateFunction(f))) <==>
            ShadowedCount(f) <= 1 && (ShadowedCount(f) == 1 ==> ShadowName(f) !in CountedPart(f))
  {
    FunctionIds(f);
    CountedIdsDistinct(f.blocks);
    CountedIdsLength(f.blocks);
    DistinctPrefix(CountedIds(f.blocks), |CountedPart(f)|);
    DistinctSum(CountedPart(f), ShadowedCount(f), ShadowName(f));
  }

  /** The id that the first instruction without a value after such a bitcast would have had. */
  function NextCounted(f: Func): string
    requires ShadowedCount(f) > 0
  {
    CountedIdsLength(f.blocks);
    CountedIds(f.blocks)[|CountedPart(f)|]
  }

  /** Exactly when the ids are the counted ones throughout: no instruction without a value comes
      after such a bitcast, or only one does and the pointer's name happens to be its id. */
  lemma IdsCountIff(f: Func)
    requires f.supported && !f.skipBody && BlocksSlotted(f.blocks) && DistinctBlocks(f.blocks)
    ensures AllIds(AnnotateFunction(f)) == CountedIds(f.blocks) <==>
            ShadowedCount(f) == 0
            || (ShadowedCount(f) == 1 && ShadowName(f) == NextCounted(f))
  {
    FunctionIds(f);
    CountedIdsLength(f.blocks);
    CountedIdsDistinct(f.blocks);
    CountedSum(CountedIds(f.blocks), |CountedPart(f)|, ShadowedCount(f), ShadowName(f));
  }

  /** When copies of a name in place of the last of some different ids make no difference. */
  lemma CountedSum(ids: seq<string>, m: nat, n: nat, name: string)
    requires Distinct(ids) && |ids| == m + n
    ensures ids[..m] + Copies(n, name) == ids <==> n == 0 || (n == 1 && name == ids[m])
  {
    var all := ids[..m] + Copies(n, name);
    if n >= 2 {
      assert all[m] == all[m + 1] && ids[m] != ids[m + 1];
    } else if n == 1 {
      assert all[m] == name;
    }
  }

  // ---------- a clash ----------

  const NAMED_POINTER := Argument(0, PtrT, Some("p"))
  const NAMED_CAST := Inst(0, PtrT, Some("q"), -1, 1, 49, [NAMED_POINTER], Bitcast)
  const STORE := Inst(1, VoidT, None, -1, 2, 33, [], Plain)
  const LEAVE := Inst(2, VoidT, None, -1, 3, 1, [], Ret)

  const SHADOWED := Func("f", true, false, false, [NAMED_POINTER],
                         [Block(BlockRef(0, Some("entry"), 0, 0), [NAMED_CAST, STORE, LEAVE])])

  /** With a named bitcast of a named pointer the ids need not be distinct: both instructions after
      it go by the name of the pointer. */
  lemma NamedBitcastClash()
    ensures AllIds(AnnotateFunction(SHADOWED)) == ["p", "p"]
  {
    var insts := [NAMED_CAST, STORE, LEAVE];
    var bs := SHADOWED.blocks;
    assert bs[0].insts[0..] == insts && bs[1..] == [];
    assert LayoutOrder(bs) == insts + [];
    assert insts[1..] == [STORE, LEAVE] && insts[1..][1..] == [LEAVE] && [LEAVE][1..] == [];
    assert ValuelessCount([LEAVE]) == 1 && ValuelessCount(insts[1..]) == 2 && ValuelessCount(insts) == 2;
    assert PointerName(insts) == Some("p") && Fresh(insts) == 0;
    assert LayoutOrder(bs) == insts;
    FunctionIds(SHADOWED);
    assert ShadowedCount(SHADOWED) == 2 && ShadowName(SHADOWED) == "p";
    assert CountedPart(SHADOWED) == [];
  }
}
