/**
 What the simulation needs to know of the annotations of a function.
 */
module AnnotationFacts {
  import opened StaticIds
  import opened Ir
  import opened Annotations
  import opened Pass
  import opened Semantics
  import opened InsertedCode

  /** No branch goes to the entry. */
  ghost predicate GoodInst(i: Inst) {
    i.kind.Branch? ==> 0 !in i.kind.targets
  }

  ghost predicate GoodInsts(insts: seq<Inst>) {
    forall i <- insts :: GoodInst(i)
  }

  ghost predicate GoodBlocks(bs: seq<Block>) {
    forall b <- bs :: GoodInsts(b.insts)
  }

  /** A tracked function has a name, is not main and is not one whose body the pass skips. Of the
      vectors that are logged in a function no two types share a buffer. */
  ghost predicate GoodFunc(f: Func) {
    && (f.supported && f.tracked ==> f.name != "" && f.name != "main" && !f.skipBody)
    && KeysApart(AllLines(f))
    && GoodBlocks(f.blocks)
  }

  ghost predicate Fits(f: Func, a: Annotated) {
    && GoodInst(a.inst)
    && (a.inst.kind.Phi? && a.before == [] ==> a.after == [])
    && (a.inst.kind.Ret? ==> (a.id.Some? <==> !KindOf(f).Bare?))
  }

  ghost predicate AllFit(f: Func, anns: seq<Annotated>) {
    forall a <- anns :: Fits(f, a)
  }

  // ---------- annotations fit ----------

  lemma AnnotateFits(f: Func, bbid: string, env: Env, i: Inst, later: seq<Inst>)
    requires GoodInst(i) && f.supported && !f.skipBody
    ensures Fits(f, Annotate(f.name, bbid, env, i, later).0)
  {
  }

  lemma {:induction false} AnnotateAllFits(f: Func, bbid: string, env: Env, insts: seq<Inst>)
    requires GoodInsts(insts) && f.supported && !f.skipBody
    ensures AllFit(f, AnnotateAll(f.name, bbid, env, insts).0)
    decreases insts
  {
    if insts != [] {
      assert insts[0] in insts;
      AnnotateFits(f, bbid, env, insts[0], insts[1..]);
      AnnotateAllFits(f, bbid, Annotate(f.name, bbid, env, insts[0], insts[1..]).1, insts[1..]);
    }
  }

  lemma BareFits(f: Func, insts: seq<Inst>)
    requires GoodInsts(insts) && KindOf(f).Bare?
    ensures AllFit(f, Bare(insts))
  {
  }

  lemma PhisFit(f: Func, bbid: string, env: Env, phis: seq<Inst>)
    requires GoodInsts(phis) && forall i <- phis :: i.kind.Phi?
    ensures AllFit(f, PhiAnnotations(bbid, env, phis))
  {
  }

  lemma WithLinesFits(f: Func, lines: seq<Line>, anns: seq<Annotated>)
    requires AllFit(f, anns)
    ensures AllFit(f, WithLines(lines, anns))
  {
    if anns != [] {
      assert Fits(f, anns[0]);
      assert Fits(f, anns[0].(before := lines + anns[0].before));
    }
  }

  lemma AnnotateBlockFits(f: Func, varNames: map<int, string>, b: Block)
    requires GoodInsts(b.insts) && f.supported && !f.skipBody
    ensures AllFit(f, AnnotateBlock(f.name, varNames, b).0)
  {
    var bbid := BlockId(b.ref);
    var n := PhiCount(b.insts);
    var env := Env(varNames, 0);
    var phis, others := b.insts[..n], b.insts[n..];
    PhisFit(f, bbid, env, phis);
    AnnotateAllFits(f, bbid, AfterPhis(bbid, env, phis), others);
    WithLinesFits(f, AllPhiLines(f.name, bbid, env, phis),
                  AnnotateAll(f.name, bbid, AfterPhis(bbid, env, phis), others).0);
  }

  lemma FunctionFits(f: Func, k: nat)
    requires GoodBlocks(f.blocks) && k < |f.blocks|
    ensures AllFit(f, AnnotateFunction(f)[k])
  {
    if f.supported && !f.skipBody {
      assert f.blocks[k] in f.blocks;
      var names := BlockOf(f.name, map[], f.blocks, k);
      AnnotateBlockFits(f, names, f.blocks[k]);
    } else {
      assert f.blocks[k] in f.blocks;
      BareFits(f, f.blocks[k].insts);
    }
  }

  // ---------- phis ----------

  /** What the instrumented block starts with are the phis of the original one. */
  lemma {:induction false} SamePhis(f: Func, anns: seq<Annotated>)
    requires AllFit(f, anns)
    ensures LeadingPhis(BlockNodes(f, anns)) == PhisOf(anns)
    decreases anns
  {
    if anns != [] {
      var a := anns[0];
      assert Fits(f, a);
      var nodes, rest := BlockNodes(f, anns), BlockNodes(f, anns[1..]);
      if a.before != [] {
        SomeCodes(a.before);
        assert nodes[0] == Inserted(Codes(a.before)[0]);
      } else if a.inst.kind.Phi? {
        assert InstNodes(f, a) == [Original(a.inst)];
        assert nodes[0] == Original(a.inst) && nodes[1..] == rest;
        SamePhis(f, anns[1..]);
      } else if BeforeReturn(f, a) != [] {
        assert nodes[0] == Inserted(BeforeReturn(f, a)[0]);
      } else {
        assert nodes[0] == Original(a.inst);
      }
    }
  }

  lemma SomeCodes(ls: seq<Line>)
    requires ls != []
    ensures Codes(ls) != []
  {
  }
}
