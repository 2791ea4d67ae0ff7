/**
 In which order the slot tracker numbers metadata nodes and attribute sets: in the order in which the
 module, and then each function, mentions them (full-trace/SlotTracker.h:209-231, 254-283).
 */
module SlotOrder {
  import opened Wrappers
  import opened Sequences
  import opened Metadata
  import opened SlotTracker
  import opened SlotRuns
  import opened SlotReferences

  /** Mentioned by the j first lists of named metadata, or among the p first entries of the next. */
  ghost predicate NamedEarly(m: Module, j: nat, p: nat, n: Node)
    requires j < |m.namedMetadata| && p <= |m.namedMetadata[j]|
  {
    (exists i :: 0 <= i < j && n in m.namedMetadata[i]) || n in m.namedMetadata[j][..p]
  }

  ghost predicate ModuleAttributeEarly(m: Module, j: nat, a: Id)
    requires j <= |m.functions|
  {
    exists i :: 0 <= i < j && m.functions[i].attrs == Some(a)
  }

  /** The instruction stands in front of the i-th one of block b. */
  ghost predicate InstructionEarly(f: Function, b: nat, i: nat, x: Instruction)
    requires b < |f.blocks| && i <= |f.blocks[b].instructions|
  {
    (exists c :: 0 <= c < b && x in f.blocks[c].instructions) || x in f.blocks[b].instructions[..i]
  }

  /** Mentioned by an earlier instruction, or among the p first mentions of this one, in which the
      operands of an intrinsic call come before the attachments. */
  ghost predicate FunctionEarly(f: Function, b: nat, i: nat, p: nat, n: Node)
    requires b < |f.blocks| && i < |f.blocks[b].instructions|
    requires var x := f.blocks[b].instructions[i];
             p <= |x.intrinsicMetadata| + |x.attachments|
  {
    var x := f.blocks[b].instructions[i];
    || (exists y :: InstructionEarly(f, b, i, y) && Mentions(y, n))
    || (if p <= |x.intrinsicMetadata| then n in x.intrinsicMetadata[..p]
        else n in x.intrinsicMetadata || n in x.attachments[..p - |x.intrinsicMetadata|])
  }

  ghost predicate FunctionAttributeEarly(f: Function, b: nat, i: nat, a: Id)
    requires b < |f.blocks| && i <= |f.blocks[b].instructions|
  {
    exists y :: InstructionEarly(f, b, i, y) && y.attrs == Some(a)
  }

  // ---------- the lists in two parts ----------

  lemma {:induction false} NamedRootsSplit(ns: seq<seq<Node>>, j: nat)
    requires j <= |ns|
    ensures NamedRoots(ns) == NamedRoots(ns[..j]) + NamedRoots(ns[j..])
    decreases ns
  {
    if j > 0 {
      NamedRootsSplit(ns[1..], j - 1);
      assert ns[1..][..j - 1] == ns[..j][1..] && ns[1..][j - 1..] == ns[j..];
    }
  }

  lemma {:induction false} DeclAttrsSplit(fs: seq<FunctionDecl>, j: nat)
    requires j <= |fs|
    ensures DeclAttrs(fs) == DeclAttrs(fs[..j]) + DeclAttrs(fs[j..])
    decreases fs
  {
    if j > 0 {
      DeclAttrsSplit(fs[1..], j - 1);
      assert fs[1..][..j - 1] == fs[..j][1..] && fs[1..][j - 1..] == fs[j..];
    }
  }

  lemma {:induction false} InstructionsRootsSplit(xs: seq<Instruction>, i: nat)
    requires i <= |xs|
    ensures InstructionsRoots(xs) == InstructionsRoots(xs[..i]) + InstructionsRoots(xs[i..])
    decreases xs
  {
    if i > 0 {
      InstructionsRootsSplit(xs[1..], i - 1);
      assert xs[1..][..i - 1] == xs[..i][1..] && xs[1..][i - 1..] == xs[i..];
    }
  }

  lemma {:induction false} BlocksRootsSplit(bs: seq<Block>, b: nat)
    requires b <= |bs|
    ensures BlocksRoots(bs) == BlocksRoots(bs[..b]) + BlocksRoots(bs[b..])
    decreases bs
  {
    if b > 0 {
      BlocksRootsSplit(bs[1..], b - 1);
      assert bs[1..][..b - 1] == bs[..b][1..] && bs[1..][b - 1..] == bs[b..];
    }
  }

  lemma {:induction false} InstructionsAttrsSplit(xs: seq<Instruction>, i: nat)
    requires i <= |xs|
    ensures InstructionsAttrs(xs) == InstructionsAttrs(xs[..i]) + InstructionsAttrs(xs[i..])
    decreases xs
  {
    if i > 0 {
      InstructionsAttrsSplit(xs[1..], i - 1);
      assert xs[1..][..i - 1] == xs[..i][1..] && xs[1..][i - 1..] == xs[i..];
    }
  }

  lemma {:induction false} BlocksAttrsSplit(bs: seq<Block>, b: nat)
    requires b <= |bs|
    ensures BlocksAttrs(bs) == BlocksAttrs(bs[..b]) + BlocksAttrs(bs[b..])
    decreases bs
  {
    if b > 0 {
      BlocksAttrsSplit(bs[1..], b - 1);
      assert bs[1..][..b - 1] == bs[..b][1..] && bs[1..][b - 1..] == bs[b..];
    }
  }

  // ---------- earlier mentions are numbered first ----------

  /** What can be reached from the roots in front is numbered in front. */
  lemma RootsInFront(g: Graph, order: seq<Node>, front: seq<Node>, back: seq<Node>) returns (r: seq<Node>)
    requires g.Valid() && g.LocalsAcyclic() && (forall n <- front + back :: n in g.operands) && Complete(g, order)
    ensures r <= VisitAll(g, order, front + back)
    ensures forall k :: k in r <==>
              k in order || (k in g.operands && g.Recorded(k) && exists n :: n in front && Reach(g, n, k))
  {
    assert (forall n <- front :: n in front + back) && (forall n <- back :: n in front + back);
    r := VisitAll(g, order, front);
    VisitAllAppend(g, order, front, back);
    VisitAllComplete(g, order, front);
  }

  lemma AttributesInFront(order: seq<Id>, front: seq<Id>, back: seq<Id>)
    requires Distinct(order)
    ensures AddAll(order, front) <= AddAll(order, front + back)
    ensures forall a :: a in AddAll(order, front) <==> a in order || a in front
  {
    AddAllAppend(order, front, back);
    AddAllExact(order, front);
  }

  lemma NamedParts(m: Module, j: nat, p: nat) returns (front: seq<Node>, back: seq<Node>)
    requires j < |m.namedMetadata| && p <= |m.namedMetadata[j]|
    ensures NamedRoots(m.namedMetadata) == front + back
    ensures forall n :: n in front <==> NamedEarly(m, j, p, n)
  {
    var ns := m.namedMetadata;
    NamedRootsSplit(ns, j);
    front := NamedRoots(ns[..j]) + ns[j][..p];
    back := ns[j][p..] + NamedRoots(ns[j + 1..]);
    assert ns[j..][0] == ns[j] && ns[j..][1..] == ns[j + 1..];
    assert ns[j] == ns[j][..p] + ns[j][p..];
    forall n
      ensures n in front <==> NamedEarly(m, j, p, n)
    {
      NamedRootsAre(ns[..j], n);
    }
  }

  /**
   After a run with a query, the nodes that can be reached from the named metadata up to any place in
   the module are numbered first, in front of all others.
   */
  lemma ModuleMetadataInOrder(g: Graph, m: Module, first: Option<Function>, ops: seq<Op>, j: nat, p: nat)
    returns (r: seq<Node>)
    requires Known(g, Fresh(Some(m), first)) && KnownOps(g, ops) && Query in ops
    requires j < |m.namedMetadata| && p <= |m.namedMetadata[j]|
    ensures r <= Run(g, Fresh(Some(m), first), ops).mdOrder
    ensures forall k :: k in r <==>
              k in g.operands && g.Recorded(k) && exists n :: NamedEarly(m, j, p, n) && Reach(g, n, k)
  {
    FreshInvariant(g, m, first);
    GlobalStability(g, m, Fresh(Some(m), first), ops);
    ReferencesExact(g, m, first, ops);
    var front, back := NamedParts(m, j, p);
    r := RootsInFront(g, [], front, back);
  }

  lemma ModuleAttributesInOrder(g: Graph, m: Module, first: Option<Function>, ops: seq<Op>, j: nat)
    returns (r: seq<Id>)
    requires Known(g, Fresh(Some(m), first)) && KnownOps(g, ops) && Query in ops && j <= |m.functions|
    ensures r <= Run(g, Fresh(Some(m), first), ops).asOrder
    ensures forall a :: a in r <==> ModuleAttributeEarly(m, j, a)
  {
    FreshInvariant(g, m, first);
    GlobalStability(g, m, Fresh(Some(m), first), ops);
    ReferencesExact(g, m, first, ops);
    var front, back := ModuleAttributeParts(m, j);
    AttributesInFront([], front, back);
    r := AddAll([], front);
  }

  lemma ModuleAttributeParts(m: Module, j: nat) returns (front: seq<Id>, back: seq<Id>)
    requires j <= |m.functions|
    ensures DeclAttrs(m.functions) == front + back
    ensures forall a :: a in front <==> ModuleAttributeEarly(m, j, a)
  {
    DeclAttrsSplit(m.functions, j);
    front, back := DeclAttrs(m.functions[..j]), DeclAttrs(m.functions[j..]);
    forall a
      ensures a in front <==> ModuleAttributeEarly(m, j, a)
    {
      DeclAttrsAre(m.functions[..j], a);
    }
  }

  // ---------- within a function ----------

  lemma BlocksFront(f: Function, b: nat, i: nat, n: Node)
    requires b < |f.blocks| && i <= |f.blocks[b].instructions|
    ensures n in BlocksRoots(f.blocks[..b]) + InstructionsRoots(f.blocks[b].instructions[..i])
            <==> exists y :: InstructionEarly(f, b, i, y) && Mentions(y, n)
  {
    BlocksRootsAre(f.blocks[..b], n);
    InstructionsRootsAre(f.blocks[b].instructions[..i], n);
  }

  lemma BlocksAttrsFront(f: Function, b: nat, i: nat, a: Id)
    requires b < |f.blocks| && i <= |f.blocks[b].instructions|
    ensures a in BlocksAttrs(f.blocks[..b]) + InstructionsAttrs(f.blocks[b].instructions[..i])
            <==> FunctionAttributeEarly(f, b, i, a)
  {
    BlocksAttrsAre(f.blocks[..b], a);
    InstructionsAttrsAre(f.blocks[b].instructions[..i], a);
  }

  lemma Around<T>(a: seq<T>, x: seq<T>, y: seq<T>, c: seq<T>)
    ensures a + ((x + y) + c) == (a + x) + (y + c)
  {
  }

  lemma RootsAround(f: Function, b: nat, i: nat)
    requires b < |f.blocks| && i <= |f.blocks[b].instructions|
    ensures var xs := f.blocks[b].instructions;
            BlocksRoots(f.blocks) == (BlocksRoots(f.blocks[..b]) + InstructionsRoots(xs[..i]))
                                     + (InstructionsRoots(xs[i..]) + BlocksRoots(f.blocks[b + 1..]))
  {
    var xs := f.blocks[b].instructions;
    BlocksRootsSplit(f.blocks, b);
    InstructionsRootsSplit(xs, i);
    FirstRoots(f.blocks[b..]);
    assert f.blocks[b..][1..] == f.blocks[b + 1..];
    Around(BlocksRoots(f.blocks[..b]), InstructionsRoots(xs[..i]), InstructionsRoots(xs[i..]),
           BlocksRoots(f.blocks[b + 1..]));
  }

  lemma FirstRoots(bs: seq<Block>)
    requires bs != []
    ensures BlocksRoots(bs) == InstructionsRoots(bs[0].instructions) + BlocksRoots(bs[1..])
    ensures BlocksAttrs(bs) == InstructionsAttrs(bs[0].instructions) + BlocksAttrs(bs[1..])
  {
  }

  lemma AttrsAround(f: Function, b: nat, i: nat)
    requires b < |f.blocks| && i <= |f.blocks[b].instructions|
    ensures var xs := f.blocks[b].instructions;
            BlocksAttrs(f.blocks) == (BlocksAttrs(f.blocks[..b]) + InstructionsAttrs(xs[..i]))
                                     + (InstructionsAttrs(xs[i..]) + BlocksAttrs(f.blocks[b + 1..]))
  {
    var xs := f.blocks[b].instructions;
    BlocksAttrsSplit(f.blocks, b);
    InstructionsAttrsSplit(xs, i);
    FirstRoots(f.blocks[b..]);
    assert f.blocks[b..][1..] == f.blocks[b + 1..];
    Around(BlocksAttrs(f.blocks[..b]), InstructionsAttrs(xs[..i]), InstructionsAttrs(xs[i..]),
           BlocksAttrs(f.blocks[b + 1..]));
  }

  lemma FunctionParts(f: Function, b: nat, i: nat, p: nat) returns (front: seq<Node>, back: seq<Node>)
    requires b < |f.blocks| && i < |f.blocks[b].instructions|
    requires p <= |InstructionRoots(f.blocks[b].instructions[i])|
    ensures BlocksRoots(f.blocks) == front + back
    ensures forall n :: n in front <==> FunctionEarly(f, b, i, p, n)
  {
    var xs := f.blocks[b].instructions;
    var own, ahead := InstructionRoots(xs[i]), BlocksRoots(f.blocks[..b]) + InstructionsRoots(xs[..i]);
    RootsAround(f, b, i);
    assert xs[i..][0] == xs[i] && xs[i..][1..] == xs[i + 1..];
    front := ahead + own[..p];
    back := own[p..] + InstructionsRoots(xs[i + 1..]) + BlocksRoots(f.blocks[b + 1..]);
    assert own == own[..p] + own[p..];
    forall n
      ensures n in front <==> FunctionEarly(f, b, i, p, n)
    {
      BlocksFront(f, b, i, n);
      OwnPart(xs[i], p, n);
    }
  }

  lemma OwnPart(x: Instruction, p: nat, n: Node)
    requires p <= |InstructionRoots(x)|
    ensures n in InstructionRoots(x)[..p]
            <==> if p <= |x.intrinsicMetadata| then n in x.intrinsicMetadata[..p]
                 else n in x.intrinsicMetadata || n in x.attachments[..p - |x.intrinsicMetadata|]
  {
    var k := |x.intrinsicMetadata|;
    if p <= k {
      assert InstructionRoots(x)[..p] == x.intrinsicMetadata[..p];
    } else {
      assert InstructionRoots(x)[..p] == x.intrinsicMetadata + x.attachments[..p - k];
    }
  }

  /**
   When a query processes a function, the nodes that can be reached from its mentions up to any place
   are numbered right behind those that had numbers before, in front of all others.
   */
  lemma FunctionMetadataInOrder(g: Graph, t: Tracker, f: Function, b: nat, i: nat, p: nat) returns (r: seq<Node>)
    requires Known(g, t) && t.theModule.None? && t.theFunction == Some(f) && !t.processed && Complete(g, t.mdOrder)
    requires b < |f.blocks| && i < |f.blocks[b].instructions|
    requires p <= |InstructionRoots(f.blocks[b].instructions[i])|
    ensures r <= Step(g, t, Query).mdOrder
    ensures forall k :: k in r <==>
              k in t.mdOrder
              || (k in g.operands && g.Recorded(k) && exists n :: FunctionEarly(f, b, i, p, n) && Reach(g, n, k))
  {
    var front, back := FunctionParts(f, b, i, p);
    r := RootsInFront(g, t.mdOrder, front, back);
  }

  lemma FunctionAttributesInOrder(g: Graph, t: Tracker, f: Function, b: nat, i: nat) returns (r: seq<Id>)
    requires Known(g, t) && t.theModule.None? && t.theFunction == Some(f) && !t.processed && Distinct(t.asOrder)
    requires b < |f.blocks| && i <= |f.blocks[b].instructions|
    ensures r <= Step(g, t, Query).asOrder
    ensures forall a :: a in r <==> a in t.asOrder || FunctionAttributeEarly(f, b, i, a)
  {
    var xs := f.blocks[b].instructions;
    var front := BlocksAttrs(f.blocks[..b]) + InstructionsAttrs(xs[..i]);
    AttrsAround(f, b, i);
    AttributesInFront(t.asOrder, front, InstructionsAttrs(xs[i..]) + BlocksAttrs(f.blocks[b + 1..]));
    r := AddAll(t.asOrder, front);
    forall a
      ensures a in front <==> FunctionAttributeEarly(f, b, i, a)
    {
      BlocksAttrsFront(f, b, i, a);
    }
  }
}
