/**
 Which metadata nodes and attribute sets the slot tracker numbers, said over the module and the
 instructions of the functions it has processed (full-trace/SlotTracker.h:209-231, 254-283).
 */
module SlotReferences {
  import opened Wrappers
  import opened Metadata
  import opened SlotTracker
  import opened SlotRuns

  // ---------- what a module and a function mention ----------

  ghost predicate ModuleNames(m: Module, n: Node) {
    exists j :: 0 <= j < |m.namedMetadata| && n in m.namedMetadata[j]
  }

  ghost predicate InstructionOf(f: Function, i: Instruction) {
    exists b :: 0 <= b < |f.blocks| && i in f.blocks[b].instructions
  }

  /** A metadata operand of an intrinsic call, or metadata attached to an instruction. */
  predicate Mentions(i: Instruction, n: Node) {
    n in i.intrinsicMetadata || n in i.attachments
  }

  ghost predicate FunctionNames(f: Function, n: Node) {
    exists i :: InstructionOf(f, i) && Mentions(i, n)
  }

  ghost predicate ModuleAttribute(m: Module, a: Id) {
    exists j :: 0 <= j < |m.functions| && m.functions[j].attrs == Some(a)
  }

  ghost predicate FunctionAttribute(f: Function, a: Id) {
    exists i :: InstructionOf(f, i) && i.attrs == Some(a)
  }

  // ---------- which functions have been processed ----------

  /** The current function after the first n operations. */
  function Current(first: Option<Function>, ops: seq<Op>, n: nat): Option<Function>
    requires n <= |ops|
  {
    if n == 0 then first
    else
      match ops[n - 1]
      case Incorporate(f) => Some(f)
      case Purge => None
      case Query => Current(first, ops, n - 1)
  }

  /** A query came while the function was the current one. */
  ghost predicate Queried(first: Option<Function>, ops: seq<Op>, f: Function) {
    exists n :: 0 <= n < |ops| && ops[n].Query? && Current(first, ops, n) == Some(f)
  }

  /** The metadata nodes from which the numbering has started. */
  ghost predicate Root(m: Module, first: Option<Function>, ops: seq<Op>, n: Node) {
    (Query in ops && ModuleNames(m, n)) || exists f :: Queried(first, ops, f) && FunctionNames(f, n)
  }

  ghost predicate Attribute(m: Module, first: Option<Function>, ops: seq<Op>, a: Id) {
    (Query in ops && ModuleAttribute(m, a)) || exists f :: Queried(first, ops, f) && FunctionAttribute(f, a)
  }

  /** Recorded nodes that can be reached from a root. */
  ghost predicate Reached(g: Graph, m: Module, first: Option<Function>, ops: seq<Op>, k: Node) {
    k in g.operands && g.Recorded(k) && exists n :: Root(m, first, ops, n) && Reach(g, n, k)
  }

  // ---------- the lists are these mentions ----------

  lemma {:induction false} NamedRootsAre(ns: seq<seq<Node>>, n: Node)
    ensures n in NamedRoots(ns) <==> exists j :: 0 <= j < |ns| && n in ns[j]
    decreases ns
  {
    if ns != [] {
      NamedRootsAre(ns[1..], n);
      if n in NamedRoots(ns[1..]) {
        var j :| 0 <= j < |ns[1..]| && n in ns[1..][j];
        assert n in ns[j + 1];
      }
    }
  }

  lemma {:induction false} InstructionsRootsAre(insts: seq<Instruction>, n: Node)
    ensures n in InstructionsRoots(insts) <==> exists i <- insts :: Mentions(i, n)
    decreases insts
  {
    if insts != [] {
      InstructionsRootsAre(insts[1..], n);
      assert n in InstructionRoots(insts[0]) <==> Mentions(insts[0], n);
      assert forall i :: i in insts <==> i == insts[0] || i in insts[1..];
    }
  }

  lemma {:induction false} BlocksRootsAre(bs: seq<Block>, n: Node)
    ensures n in BlocksRoots(bs) <==> exists b, i :: 0 <= b < |bs| && i in bs[b].instructions && Mentions(i, n)
    decreases bs
  {
    if bs != [] {
      InstructionsRootsAre(bs[0].instructions, n);
      BlocksRootsAre(bs[1..], n);
      if n in BlocksRoots(bs[1..]) {
        var b, i :| 0 <= b < |bs[1..]| && i in bs[1..][b].instructions && Mentions(i, n);
        assert i in bs[b + 1].instructions;
      }
    }
  }

  lemma {:induction false} DeclAttrsAre(fs: seq<FunctionDecl>, a: Id)
    ensures a in DeclAttrs(fs) <==> exists j :: 0 <= j < |fs| && fs[j].attrs == Some(a)
    decreases fs
  {
    if fs != [] {
      DeclAttrsAre(fs[1..], a);
      if a in DeclAttrs(fs[1..]) {
        var j :| 0 <= j < |fs[1..]| && fs[1..][j].attrs == Some(a);
        assert fs[j + 1].attrs == Some(a);
      }
    }
  }

  lemma {:induction false} InstructionsAttrsAre(insts: seq<Instruction>, a: Id)
    ensures a in InstructionsAttrs(insts) <==> exists i <- insts :: i.attrs == Some(a)
    decreases insts
  {
    if insts != [] {
      InstructionsAttrsAre(insts[1..], a);
      assert forall i :: i in insts <==> i == insts[0] || i in insts[1..];
    }
  }

  lemma {:induction false} BlocksAttrsAre(bs: seq<Block>, a: Id)
    ensures a in BlocksAttrs(bs) <==> exists b, i :: 0 <= b < |bs| && i in bs[b].instructions && i.attrs == Some(a)
    decreases bs
  {
    if bs != [] {
      InstructionsAttrsAre(bs[0].instructions, a);
      BlocksAttrsAre(bs[1..], a);
      if a in BlocksAttrs(bs[1..]) {
        var b, i :| 0 <= b < |bs[1..]| && i in bs[1..][b].instructions && i.attrs == Some(a);
        assert i in bs[b + 1].instructions;
      }
    }
  }

  lemma FunctionMentions(f: Function)
    ensures forall n :: n in BlocksRoots(f.blocks) <==> FunctionNames(f, n)
    ensures forall a :: a in BlocksAttrs(f.blocks) <==> FunctionAttribute(f, a)
  {
    forall n
      ensures n in BlocksRoots(f.blocks) <==> FunctionNames(f, n)
    {
      BlocksRootsAre(f.blocks, n);
    }
    forall a
      ensures a in BlocksAttrs(f.blocks) <==> FunctionAttribute(f, a)
    {
      BlocksAttrsAre(f.blocks, a);
    }
  }

  lemma ModuleMentions(m: Module)
    ensures forall n :: n in NamedRoots(m.namedMetadata) <==> ModuleNames(m, n)
    ensures forall a :: a in DeclAttrs(m.functions) <==> ModuleAttribute(m, a)
  {
    forall n
      ensures n in NamedRoots(m.namedMetadata) <==> ModuleNames(m, n)
    {
      NamedRootsAre(m.namedMetadata, n);
    }
    forall a
      ensures a in DeclAttrs(m.functions) <==> ModuleAttribute(m, a)
    {
      DeclAttrsAre(m.functions, a);
    }
  }

  // ---------- one more operation ----------

  lemma {:induction false} CurrentPrefix(first: Option<Function>, ops: seq<Op>, op: Op, n: nat)
    requires n <= |ops|
    ensures Current(first, ops + [op], n) == Current(first, ops, n)
  {
    if n > 0 {
      CurrentPrefix(first, ops, op, n - 1);
    }
  }

  lemma QueriedMore(first: Option<Function>, ops: seq<Op>, op: Op, f: Function)
    ensures Queried(first, ops + [op], f)
            <==> Queried(first, ops, f) || (op.Query? && Current(first, ops, |ops|) == Some(f))
  {
    var more := ops + [op];
    forall n | 0 <= n <= |ops|
      ensures Current(first, more, n) == Current(first, ops, n)
    {
      CurrentPrefix(first, ops, op, n);
    }
    if Queried(first, ops, f) {
      var n :| 0 <= n < |ops| && ops[n].Query? && Current(first, ops, n) == Some(f);
      assert more[n].Query?;
    }
    if op.Query? && Current(first, ops, |ops|) == Some(f) {
      assert more[|ops|].Query?;
    }
  }

  lemma {:induction false} RunMore(g: Graph, t: Tracker, ops: seq<Op>, op: Op)
    requires Known(g, t) && KnownOps(g, ops + [op])
    ensures KnownOps(g, ops) && KnownOps(g, [op])
    ensures Run(g, t, ops + [op]) == Step(g, Run(g, t, ops), op)
    decreases ops
  {
    var more := ops + [op];
    assert op in more && forall x <- ops :: x in more;
    if ops == [] {
      assert more[1..] == [];
    } else {
      assert more[1..] == ops[1..] + [op];
      RunMore(g, Step(g, t, ops[0]), ops[1..], op);
    }
  }

  // ---------- what every run numbers ----------

  /** What the tracker holds after these operations. */
  ghost predicate Numbered(g: Graph, m: Module, first: Option<Function>, ops: seq<Op>, t: Tracker) {
    && t.theModule == (if Query in ops then None else Some(m)) && t.theFunction == Current(first, ops, |ops|)
    && (t.processed && t.theFunction.Some? ==> Queried(first, ops, t.theFunction.value))
    && (forall k :: k in t.mdOrder <==> Reached(g, m, first, ops, k))
    && (forall a :: a in t.asOrder <==> Attribute(m, first, ops, a))
  }

  /** Another function, or none: nothing is numbered. */
  lemma NothingNumbered(g: Graph, m: Module, first: Option<Function>, ops: seq<Op>, t: Tracker, op: Op)
    requires Known(g, t) && KnownOps(g, [op]) && Numbered(g, m, first, ops, t) && !op.Query?
    ensures Numbered(g, m, first, ops + [op], Step(g, t, op))
  {
    assert op in [op];
    forall f
      ensures Queried(first, ops + [op], f) <==> Queried(first, ops, f)
    {
      QueriedMore(first, ops, op, f);
    }
    assert Query in ops + [op] <==> Query in ops;
    forall n
      ensures Root(m, first, ops + [op], n) <==> Root(m, first, ops, n)
    {
    }
    assert forall k :: Reached(g, m, first, ops + [op], k) <==> Reached(g, m, first, ops, k);
    assert forall a :: Attribute(m, first, ops + [op], a) <==> Attribute(m, first, ops, a);
  }

  // ---------- a query ----------

  ghost predicate ModuleReached(g: Graph, m: Module, k: Node) {
    k in g.operands && g.Recorded(k) && exists n :: ModuleNames(m, n) && Reach(g, n, k)
  }

  ghost predicate FunctionReached(g: Graph, f: Function, k: Node) {
    k in g.operands && g.Recorded(k) && exists n :: FunctionNames(f, n) && Reach(g, n, k)
  }

  lemma ModuleAdds(g: Graph, m: Module, t: Tracker)
    requires g.Valid() && g.LocalsAcyclic() && KnownModule(g, m) && Complete(g, t.mdOrder) && Distinct(t.asOrder)
    ensures var u := ModuleProcessed(g, t, m);
            && (forall k :: k in u.mdOrder <==> k in t.mdOrder || ModuleReached(g, m, k))
            && (forall a :: a in u.asOrder <==> a in t.asOrder || ModuleAttribute(m, a))
  {
    ModuleMentions(m);
    VisitAllComplete(g, t.mdOrder, NamedRoots(m.namedMetadata));
    AddAllExact(t.asOrder, DeclAttrs(m.functions));
  }

  lemma FunctionAdds(g: Graph, f: Function, t: Tracker)
    requires g.Valid() && g.LocalsAcyclic() && KnownFunction(g, f) && Complete(g, t.mdOrder) && Distinct(t.asOrder)
    ensures var u := FunctionProcessed(g, t, f);
            && (forall k :: k in u.mdOrder <==> k in t.mdOrder || FunctionReached(g, f, k))
            && (forall a :: a in u.asOrder <==> a in t.asOrder || FunctionAttribute(f, a))
  {
    FunctionMentions(f);
    VisitAllComplete(g, t.mdOrder, BlocksRoots(f.blocks));
    AddAllExact(t.asOrder, BlocksAttrs(f.blocks));
  }

  /** A query lets the numbering start from what the module and the current function mention. */
  lemma RootMore(m: Module, first: Option<Function>, ops: seq<Op>, n: Node)
    ensures Root(m, first, ops + [Query], n)
            <==> Root(m, first, ops, n) || ModuleNames(m, n)
                 || (Current(first, ops, |ops|).Some? && FunctionNames(Current(first, ops, |ops|).value, n))
  {
    forall f
      ensures Queried(first, ops + [Query], f)
              <==> Queried(first, ops, f) || Current(first, ops, |ops|) == Some(f)
    {
      QueriedMore(first, ops, Query, f);
    }
    assert Query in ops + [Query];
  }

  lemma AttributeMore(m: Module, first: Option<Function>, ops: seq<Op>, a: Id)
    ensures Attribute(m, first, ops + [Query], a)
            <==> Attribute(m, first, ops, a) || ModuleAttribute(m, a)
                 || (Current(first, ops, |ops|).Some? && FunctionAttribute(Current(first, ops, |ops|).value, a))
  {
    forall f
      ensures Queried(first, ops + [Query], f)
              <==> Queried(first, ops, f) || Current(first, ops, |ops|) == Some(f)
    {
      QueriedMore(first, ops, Query, f);
    }
    assert Query in ops + [Query];
  }

  lemma ReachedMore(g: Graph, m: Module, first: Option<Function>, ops: seq<Op>, k: Node)
    ensures Reached(g, m, first, ops + [Query], k)
            <==> Reached(g, m, first, ops, k) || ModuleReached(g, m, k)
                 || (Current(first, ops, |ops|).Some? && FunctionReached(g, Current(first, ops, |ops|).value, k))
  {
    forall n
      ensures Root(m, first, ops + [Query], n)
              <==> Root(m, first, ops, n) || ModuleNames(m, n)
                   || (Current(first, ops, |ops|).Some? && FunctionNames(Current(first, ops, |ops|).value, n))
    {
      RootMore(m, first, ops, n);
    }
  }

  /** What has been mentioned before is mentioned no less. */
  lemma AlreadyRoots(g: Graph, m: Module, first: Option<Function>, ops: seq<Op>)
    ensures Query in ops ==> forall k :: ModuleReached(g, m, k) ==> Reached(g, m, first, ops, k)
    ensures Query in ops ==> forall a :: ModuleAttribute(m, a) ==> Attribute(m, first, ops, a)
    ensures forall f, k :: Queried(first, ops, f) && FunctionReached(g, f, k) ==> Reached(g, m, first, ops, k)
    ensures forall f, a :: Queried(first, ops, f) && FunctionAttribute(f, a) ==> Attribute(m, first, ops, a)
  {
    forall n | Query in ops && ModuleNames(m, n)
      ensures Root(m, first, ops, n)
    {
    }
    forall f, n | Queried(first, ops, f) && FunctionNames(f, n)
      ensures Root(m, first, ops, n)
    {
    }
  }

  lemma QueryNumbers(g: Graph, m: Module, first: Option<Function>, ops: seq<Op>, t: Tracker)
    requires Known(g, t) && KnownModule(g, m) && GlobalInvariant(g, m, t) && Numbered(g, m, first, ops, t)
    ensures Numbered(g, m, first, ops + [Query], Step(g, t, Query))
  {
    var u, f := t, t.theFunction;
    if t.theModule.Some? {
      ModuleAdds(g, m, t);
      ModuleKeeps(g, m, t);
      u := ModuleProcessed(g, t, m).(theModule := None);
    }
    if f.Some? && !t.processed {
      FunctionAdds(g, f.value, u);
    }
    AlreadyRoots(g, m, first, ops);
    var v := Step(g, t, Query);
    forall k
      ensures k in v.mdOrder <==> Reached(g, m, first, ops + [Query], k)
    {
      ReachedMore(g, m, first, ops, k);
    }
    forall a
      ensures a in v.asOrder <==> Attribute(m, first, ops + [Query], a)
    {
      AttributeMore(m, first, ops, a);
    }
    QueriedNow(first, ops, v);
  }

  lemma QueriedNow(first: Option<Function>, ops: seq<Op>, v: Tracker)
    requires v.theFunction == Current(first, ops, |ops|)
    ensures Current(first, ops + [Query], |ops| + 1) == v.theFunction && Query in ops + [Query]
    ensures v.theFunction.Some? ==> Queried(first, ops + [Query], v.theFunction.value)
  {
    CurrentPrefix(first, ops, Query, |ops|);
    if v.theFunction.Some? {
      QueriedMore(first, ops, Query, v.theFunction.value);
    }
  }

  lemma StartsNumbered(g: Graph, m: Module, first: Option<Function>)
    ensures Numbered(g, m, first, [], Fresh(Some(m), first))
  {
  }

  /**
   Over every run on a fresh tracker, the numbered metadata nodes are exactly the recorded nodes that
   can be reached from the named metadata of the module or from what the instructions of a function
   mention, once a query has come for it; and the numbered attribute sets are exactly those of the
   module's functions and of these instructions.
   */
  lemma {:induction false} ReferencesExact(g: Graph, m: Module, first: Option<Function>, ops: seq<Op>)
    requires Known(g, Fresh(Some(m), first)) && KnownOps(g, ops)
    ensures forall k :: k in Run(g, Fresh(Some(m), first), ops).mdOrder <==> Reached(g, m, first, ops, k)
    ensures forall a :: a in Run(g, Fresh(Some(m), first), ops).asOrder <==> Attribute(m, first, ops, a)
    ensures Numbered(g, m, first, ops, Run(g, Fresh(Some(m), first), ops))
    decreases |ops|
  {
    var t := Fresh(Some(m), first);
    if ops == [] {
      StartsNumbered(g, m, first);
    } else {
      var front, op := ops[..|ops| - 1], ops[|ops| - 1];
      assert ops == front + [op];
      RunMore(g, t, front, op);
      ReferencesExact(g, m, first, front);
      FreshInvariant(g, m, first);
      GlobalStability(g, m, t, front);
      if op.Query? {
        QueryNumbers(g, m, first, front, Run(g, t, front));
      } else {
        NothingNumbered(g, m, first, front, Run(g, t, front), op);
      }
    }
  }
}
