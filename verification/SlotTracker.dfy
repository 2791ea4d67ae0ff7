/**
 The slot tracker (full-trace/SlotTracker.h): numbers for module values, function values,
 metadata and attribute sets, handed out lazily at the first query. First the rules as
 functions on `Tracker`, then the class that follows them, then what every run keeps.
 */
module SlotTracker {
  import opened Wrappers
  import opened Sequences
  import opened Metadata

  type Id = nat

  datatype Global = Global(id: Id, named: bool)

  datatype FunctionDecl = FunctionDecl(id: Id, named: bool, attrs: Option<Id>)

  datatype Module = Module(globals: seq<Global>, namedMetadata: seq<seq<Node>>, functions: seq<FunctionDecl>)

  /** `intrinsicMetadata` are the metadata operands when the instruction calls an intrinsic. */
  datatype Instruction = Instruction(id: Id, isVoid: bool, named: bool, intrinsicMetadata: seq<Node>,
                                     attrs: Option<Id>, attachments: seq<Node>)

  datatype Block = Block(id: Id, named: bool, instructions: seq<Instruction>)

  datatype Function = Function(arguments: seq<Global>, blocks: seq<Block>)

  // ---------- numbering lists of things ----------

  function Unnamed(gs: seq<Global>): seq<Id>
    decreases gs
  {
    if gs == [] then [] else (if gs[0].named then [] else [gs[0].id]) + Unnamed(gs[1..])
  }

  function UnnamedFunctions(fs: seq<FunctionDecl>): seq<Id>
    decreases fs
  {
    if fs == [] then [] else (if fs[0].named then [] else [fs[0].id]) + UnnamedFunctions(fs[1..])
  }

  /** The module values that get a slot, in order: unnamed globals, then unnamed functions. */
  function ModuleValues(m: Module): seq<Id> {
    Unnamed(m.globals) + UnnamedFunctions(m.functions)
  }

  /** Everything in a function that could have a slot, in layout order, with whether it gets one. */
  function InstructionLayout(insts: seq<Instruction>): seq<(Id, bool)>
    decreases insts
  {
    if insts == [] then [] else [(insts[0].id, !insts[0].isVoid && !insts[0].named)] + InstructionLayout(insts[1..])
  }

  function BlockLayout(bs: seq<Block>): seq<(Id, bool)>
    decreases bs
  {
    if bs == [] then []
    else [(bs[0].id, !bs[0].named)] + InstructionLayout(bs[0].instructions) + BlockLayout(bs[1..])
  }

  function ArgumentLayout(gs: seq<Global>): seq<(Id, bool)>
    decreases gs
  {
    if gs == [] then [] else [(gs[0].id, !gs[0].named)] + ArgumentLayout(gs[1..])
  }

  function Layout(f: Function): seq<(Id, bool)> {
    ArgumentLayout(f.arguments) + BlockLayout(f.blocks)
  }

  /** The ids that get a slot. */
  function Slotted(layout: seq<(Id, bool)>): seq<Id>
    decreases layout
  {
    if layout == [] then [] else (if layout[0].1 then [layout[0].0] else []) + Slotted(layout[1..])
  }

  lemma {:induction false} SlottedAppend(a: seq<(Id, bool)>, b: seq<(Id, bool)>)
    ensures Slotted(a + b) == Slotted(a) + Slotted(b)
    decreases a
  {
    if a == [] {
      assert a + b == b;
    } else {
      assert (a + b)[1..] == a[1..] + b;
      SlottedAppend(a[1..], b);
      var first := if a[0].1 then [a[0].0] else [];
      assert first + Slotted(a[1..]) + Slotted(b) == first + (Slotted(a[1..]) + Slotted(b));
    }
  }

  function InstructionRoots(i: Instruction): seq<Node> {
    i.intrinsicMetadata + i.attachments
  }

  /** The metadata nodes that processing a function asks to number, in order. */
  function InstructionsRoots(insts: seq<Instruction>): seq<Node>
    decreases insts
  {
    if insts == [] then [] else InstructionRoots(insts[0]) + InstructionsRoots(insts[1..])
  }

  function BlocksRoots(bs: seq<Block>): seq<Node>
    decreases bs
  {
    if bs == [] then [] else InstructionsRoots(bs[0].instructions) + BlocksRoots(bs[1..])
  }

  function NamedRoots(ns: seq<seq<Node>>): seq<Node>
    decreases ns
  {
    if ns == [] then [] else ns[0] + NamedRoots(ns[1..])
  }

  function AttrOf(a: Option<Id>): seq<Id> {
    if a.Some? then [a.value] else []
  }

  function InstructionsAttrs(insts: seq<Instruction>): seq<Id>
    decreases insts
  {
    if insts == [] then [] else AttrOf(insts[0].attrs) + InstructionsAttrs(insts[1..])
  }

  function BlocksAttrs(bs: seq<Block>): seq<Id>
    decreases bs
  {
    if bs == [] then [] else InstructionsAttrs(bs[0].instructions) + BlocksAttrs(bs[1..])
  }

  function DeclAttrs(fs: seq<FunctionDecl>): seq<Id>
    decreases fs
  {
    if fs == [] then [] else AttrOf(fs[0].attrs) + DeclAttrs(fs[1..])
  }

  /** Metadata numbering of several roots, one after the other. */
  ghost function VisitAll(g: Graph, order: seq<Node>, roots: seq<Node>): (r: seq<Node>)
    requires g.Valid() && g.LocalsAcyclic() && forall n <- roots :: n in g.operands
    ensures order <= r
    decreases roots
  {
    if roots == [] then order else VisitAll(g, Visit(g, order, roots[0], []), roots[1..])
  }

  lemma {:induction false} VisitAllAppend(g: Graph, order: seq<Node>, a: seq<Node>, b: seq<Node>)
    requires g.Valid() && g.LocalsAcyclic() && (forall n <- a :: n in g.operands) && (forall n <- b :: n in g.operands)
    ensures VisitAll(g, order, a + b) == VisitAll(g, VisitAll(g, order, a), b)
    decreases a
  {
    if a == [] {
      assert a + b == b;
    } else {
      assert (a + b)[1..] == a[1..] + b;
      VisitAllAppend(g, Visit(g, order, a[0], []), a[1..], b);
    }
  }

  /** Numbering attribute sets: the ones not yet numbered, in order of first appearance. */
  function AddAll(order: seq<Id>, xs: seq<Id>): (r: seq<Id>)
    ensures order <= r
    decreases xs
  {
    if xs == [] then order else AddAll(if xs[0] in order then order else order + [xs[0]], xs[1..])
  }

  lemma {:induction false} AddAllAppend(order: seq<Id>, a: seq<Id>, b: seq<Id>)
    ensures AddAll(order, a + b) == AddAll(AddAll(order, a), b)
    decreases a
  {
    if a == [] {
      assert a + b == b;
    } else {
      assert (a + b)[1..] == a[1..] + b;
      AddAllAppend(if a[0] in order then order else order + [a[0]], a[1..], b);
    }
  }

  /** Attribute numbering adds exactly the sets asked for, each once. */
  lemma {:induction false} AddAllExact(order: seq<Id>, xs: seq<Id>)
    requires Distinct(order)
    ensures Distinct(AddAll(order, xs))
    ensures forall x :: x in AddAll(order, xs) <==> x in order || x in xs
    decreases xs
  {
    if xs != [] {
      AddAllExact(if xs[0] in order then order else order + [xs[0]], xs[1..]);
    }
  }

  // ---------- the rules ----------

  /** `mOrder`, `mdOrder`, `asOrder` list what has a slot in the order of the slots; `fMap` is
      a map, since nothing clears it when a function is incorporated. */
  datatype Tracker = Tracker(theModule: Option<Module>, theFunction: Option<Function>, processed: bool,
                             mOrder: seq<Id>, fMap: map<Id, nat>, mdOrder: seq<Node>, asOrder: seq<Id>)

  function Fresh(m: Option<Module>, f: Option<Function>): Tracker {
    Tracker(m, f, false, [], map[], [], [])
  }

  /** The map after the ids got the slots k, k+1, ... one after the other. */
  function Assign(m: map<Id, nat>, k: nat, xs: seq<Id>): map<Id, nat>
    decreases xs
  {
    if xs == [] then m else Assign(m[xs[0] := k], k + 1, xs[1..])
  }

  lemma {:induction false} AssignAppend(m: map<Id, nat>, k: nat, a: seq<Id>, b: seq<Id>)
    ensures Assign(m, k, a + b) == Assign(Assign(m, k, a), k + |a|, b)
    decreases a
  {
    if a == [] {
      assert a + b == b;
    } else {
      assert (a + b)[1..] == a[1..] + b;
      AssignAppend(m[a[0] := k], k + 1, a[1..], b);
    }
  }

  lemma AssignOne(m: map<Id, nat>, k: nat, x: Id)
    ensures Assign(m, k, [x]) == m[x := k]
  {
    assert [x][1..] == [];
  }

  lemma {:induction false} AssignKeys(m: map<Id, nat>, k: nat, xs: seq<Id>)
    ensures forall x :: x in Assign(m, k, xs) <==> x in m || x in xs
    ensures forall x <- m :: x !in xs ==> Assign(m, k, xs)[x] == m[x]
    decreases xs
  {
    if xs != [] {
      AssignKeys(m[xs[0] := k], k + 1, xs[1..]);
    }
  }

  /** Distinct ids get their positions. */
  lemma {:induction false} AssignPosition(m: map<Id, nat>, k: nat, xs: seq<Id>, i: nat)
    requires Distinct(xs) && i < |xs|
    ensures xs[i] in Assign(m, k, xs) && Assign(m, k, xs)[xs[i]] == k + i
    decreases xs
  {
    AssignKeys(m[xs[0] := k], k + 1, xs[1..]);
    if i > 0 {
      AssignPosition(m[xs[0] := k], k + 1, xs[1..], i - 1);
    } else {
      assert xs[0] !in xs[1..];
    }
  }

  ghost predicate KnownModule(g: Graph, m: Module) {
    forall n <- NamedRoots(m.namedMetadata) :: n in g.operands
  }

  ghost predicate KnownFunction(g: Graph, f: Function) {
    forall n <- BlocksRoots(f.blocks) :: n in g.operands
  }

  ghost predicate Known(g: Graph, t: Tracker) {
    && g.Valid() && g.LocalsAcyclic()
    && (t.theModule.Some? ==> KnownModule(g, t.theModule.value))
    && (t.theFunction.Some? ==> KnownFunction(g, t.theFunction.value))
  }

  ghost function ModuleProcessed(g: Graph, t: Tracker, m: Module): Tracker
    requires g.Valid() && g.LocalsAcyclic() && KnownModule(g, m)
  {
    t.(mOrder := t.mOrder + ModuleValues(m),
       mdOrder := VisitAll(g, t.mdOrder, NamedRoots(m.namedMetadata)),
       asOrder := AddAll(t.asOrder, DeclAttrs(m.functions)))
  }

  ghost function FunctionProcessed(g: Graph, t: Tracker, f: Function): Tracker
    requires g.Valid() && g.LocalsAcyclic() && KnownFunction(g, f)
  {
    t.(fMap := Assign(t.fMap, 0, Slotted(Layout(f))),
       mdOrder := VisitAll(g, t.mdOrder, BlocksRoots(f.blocks)),
       asOrder := AddAll(t.asOrder, BlocksAttrs(f.blocks)),
       processed := true)
  }

  /** initialize(): the module once, then the current function unless it is processed. */
  ghost function Initialized(g: Graph, t: Tracker): Tracker
    requires Known(g, t)
  {
    var u := if t.theModule.Some? then ModuleProcessed(g, t, t.theModule.value).(theModule := None) else t;
    if u.theFunction.Some? && !u.processed then FunctionProcessed(g, u, u.theFunction.value) else u
  }

  datatype Op =
    | Incorporate(f: Function)
    | Purge
    | Query

  ghost function Step(g: Graph, t: Tracker, op: Op): Tracker
    requires Known(g, t) && (op.Incorporate? ==> KnownFunction(g, op.f))
  {
    match op
    case Incorporate(f) => t.(theFunction := Some(f), processed := false)
    case Purge => t.(fMap := map[], theFunction := None, processed := false)
    case Query => Initialized(g, t)
  }

  function SlotIn(m: map<Id, nat>, x: Id): int {
    if x in m then m[x] else -1
  }

  lemma SplitParts(m: map<Id, nat>, k: nat, a: seq<(Id, bool)>, b: seq<(Id, bool)>)
    ensures Assign(m, k, Slotted(a + b)) == Assign(Assign(m, k, Slotted(a)), k + |Slotted(a)|, Slotted(b))
    ensures |Slotted(a + b)| == |Slotted(a)| + |Slotted(b)|
  {
    SlottedAppend(a, b);
    AssignAppend(m, k, Slotted(a), Slotted(b));
  }

  lemma UnseenShrinks(g: Graph, order: seq<Node>, later: seq<Node>)
    requires order <= later
    ensures Unseen(g, later) <= Unseen(g, order)
  {
  }

  /** Part of a function: the layout of its values, its metadata and its attribute sets. */
  datatype Part = Part(layout: seq<(Id, bool)>, roots: seq<Node>, attrs: seq<Id>)

  function Both(a: Part, b: Part): Part {
    Part(a.layout + b.layout, a.roots + b.roots, a.attrs + b.attrs)
  }

  const NOTHING := Part([], [], [])

  function ValuePart(v: Id, named: bool): Part {
    Part([(v, !named)], [], [])
  }

  function InstructionPart(i: Instruction): Part {
    Part([(i.id, !i.isVoid && !i.named)], InstructionRoots(i), AttrOf(i.attrs))
  }

  function InstructionsPart(insts: seq<Instruction>): Part
    decreases insts
  {
    if insts == [] then NOTHING else Both(InstructionPart(insts[0]), InstructionsPart(insts[1..]))
  }

  function ArgumentsPart(args: seq<Global>): Part
    decreases args
  {
    if args == [] then NOTHING else Both(ValuePart(args[0].id, args[0].named), ArgumentsPart(args[1..]))
  }

  function BlocksPart(blocks: seq<Block>): Part
    decreases blocks
  {
    if blocks == [] then NOTHING
    else Both(Both(ValuePart(blocks[0].id, blocks[0].named), InstructionsPart(blocks[0].instructions)),
              BlocksPart(blocks[1..]))
  }

  lemma {:induction false} PartOfInstructions(insts: seq<Instruction>)
    ensures InstructionsPart(insts)
            == Part(InstructionLayout(insts), InstructionsRoots(insts), InstructionsAttrs(insts))
    decreases insts
  {
    if insts != [] {
      PartOfInstructions(insts[1..]);
    }
  }

  lemma {:induction false} PartOfArguments(args: seq<Global>)
    ensures ArgumentsPart(args) == Part(ArgumentLayout(args), [], [])
    decreases args
  {
    if args != [] {
      PartOfArguments(args[1..]);
    }
  }

  lemma PartOfBlock(value: Part, body: Part, rest: Part)
    requires value.roots == [] && value.attrs == []
    ensures Both(Both(value, body), rest) ==
            Part(value.layout + body.layout + rest.layout, body.roots + rest.roots, body.attrs + rest.attrs)
  {
    assert [] + body.roots == body.roots && [] + body.attrs == body.attrs;
  }

  lemma {:induction false} PartOfBlocks(blocks: seq<Block>)
    ensures BlocksPart(blocks) == Part(BlockLayout(blocks), BlocksRoots(blocks), BlocksAttrs(blocks))
    decreases blocks
  {
    if blocks != [] {
      var b, rest := blocks[0], blocks[1..];
      PartOfBlocks(rest);
      PartOfInstructions(b.instructions);
      PartOfBlock(ValuePart(b.id, b.named), InstructionsPart(b.instructions), BlocksPart(rest));
    }
  }

  lemma PartsOfFunction(f: Function)
    ensures Both(ArgumentsPart(f.arguments), BlocksPart(f.blocks))
            == Part(Layout(f), BlocksRoots(f.blocks), BlocksAttrs(f.blocks))
    ensures BlocksPart(f.blocks).roots == BlocksRoots(f.blocks) && ArgumentsPart(f.arguments).roots == []
  {
    PartOfArguments(f.arguments);
    PartOfBlocks(f.blocks);
  }

  datatype Numbering = Numbering(fMap: map<Id, nat>, fNext: nat, mdOrder: seq<Node>, asOrder: seq<Id>)

  ghost predicate KnownPart(g: Graph, p: Part) {
    g.Valid() && g.LocalsAcyclic() && forall n <- p.roots :: n in g.operands
  }

  ghost function Add(g: Graph, n: Numbering, p: Part): Numbering
    requires KnownPart(g, p)
  {
    Numbering(Assign(n.fMap, n.fNext, Slotted(p.layout)), n.fNext + |Slotted(p.layout)|,
              VisitAll(g, n.mdOrder, p.roots), AddAll(n.asOrder, p.attrs))
  }

  lemma KnownBoth(g: Graph, a: Part, b: Part)
    requires KnownPart(g, Both(a, b))
    ensures KnownPart(g, a) && KnownPart(g, b)
  {
    assert forall r <- a.roots :: r in Both(a, b).roots;
    assert forall r <- b.roots :: r in Both(a, b).roots;
  }

  lemma BothKnown(g: Graph, a: Part, b: Part)
    requires KnownPart(g, a) && KnownPart(g, b)
    ensures KnownPart(g, Both(a, b))
  {
  }

  lemma AddBoth(g: Graph, n: Numbering, a: Part, b: Part)
    requires KnownPart(g, a) && KnownPart(g, b)
    ensures KnownPart(g, Both(a, b))
    ensures Add(g, n, Both(a, b)) == Add(g, Add(g, n, a), b)
  {
    BothKnown(g, a, b);
    SplitParts(n.fMap, n.fNext, a.layout, b.layout);
    VisitAllAppend(g, n.mdOrder, a.roots, b.roots);
    AddAllAppend(n.asOrder, a.attrs, b.attrs);
  }

  /** What numbering one value does. */
  function AddId(n: Numbering, v: Id, named: bool): Numbering {
    if named then n else n.(fMap := n.fMap[v := n.fNext], fNext := n.fNext + 1)
  }

  lemma AddOne(g: Graph, n: Numbering, v: Id, named: bool, roots: seq<Node>, attrs: seq<Id>)
    requires KnownPart(g, Part([(v, !named)], roots, attrs))
    ensures Add(g, n, Part([(v, !named)], roots, attrs)) ==
            AddId(n, v, named).(mdOrder := VisitAll(g, n.mdOrder, roots), asOrder := AddAll(n.asOrder, attrs))
  {
    var layout := [(v, !named)];
    assert layout[1..] == [];
    assert Slotted(layout) == if named then [] else [v];
    AssignOne(n.fMap, n.fNext, v);
  }

  /** Arguments first, then blocks: the slots of a function, from 0 on. */
  lemma FunctionNumbers(g: Graph, n: Numbering, f: Function)
    requires g.Valid() && g.LocalsAcyclic() && KnownFunction(g, f) && n.fNext == 0
    ensures KnownPart(g, ArgumentsPart(f.arguments)) && KnownPart(g, BlocksPart(f.blocks))
    ensures var r := Add(g, Add(g, n, ArgumentsPart(f.arguments)), BlocksPart(f.blocks));
            && r.fMap == Assign(n.fMap, 0, Slotted(Layout(f)))
            && r.mdOrder == VisitAll(g, n.mdOrder, BlocksRoots(f.blocks))
            && r.asOrder == AddAll(n.asOrder, BlocksAttrs(f.blocks))
  {
    PartsOfFunction(f);
    KnownBoth(g, ArgumentsPart(f.arguments), BlocksPart(f.blocks));
    AddBoth(g, n, ArgumentsPart(f.arguments), BlocksPart(f.blocks));
  }

  lemma RootsOf(g: Graph, i: Instruction)
    requires forall n <- InstructionRoots(i) :: n in g.operands
    ensures InstructionRoots(i) == i.intrinsicMetadata + i.attachments
    ensures (forall n <- i.intrinsicMetadata :: n in g.operands) && (forall n <- i.attachments :: n in g.operands)
  {
    assert forall n <- i.intrinsicMetadata :: n in InstructionRoots(i);
    assert forall n <- i.attachments :: n in InstructionRoots(i);
  }

  // ---------- the class ----------

  class SlotTable {
    const graph: Graph
    var theModule: Option<Module>
    var theFunction: Option<Function>
    var functionProcessed: bool
    var mMap: map<Id, nat>
    var mNext: nat
    var fMap: map<Id, nat>
    var fNext: nat
    var mdnMap: map<Node, nat>
    var mdnNext: nat
    var asMap: map<Id, nat>
    var asNext: nat
    ghost var mOrder: seq<Id>
    ghost var mdOrder: seq<Node>
    ghost var asOrder: seq<Id>

    /** Each map gives the positions in its order, and each counter is the next free slot. */
    ghost predicate Valid()
      reads this
    {
      && graph.Valid() && graph.LocalsAcyclic()
      && mMap == Assign(map[], 0, mOrder) && mNext == |mOrder|
      && mdnMap == Assign(map[], 0, mdOrder) && mdnNext == |mdOrder|
      && asMap == Assign(map[], 0, asOrder) && asNext == |asOrder|
    }

    ghost function View(): Tracker
      reads this
    {
      Tracker(theModule, theFunction, functionProcessed, mOrder, fMap, mdOrder, asOrder)
    }

    constructor (graph: Graph, m: Option<Module>, f: Option<Function>)
      requires graph.Valid() && graph.LocalsAcyclic()
      ensures Valid() && this.graph == graph && View() == Fresh(m, f)
    {
      this.graph := graph;
      theModule, theFunction, functionProcessed := m, f, false;
      mMap, mNext, fMap, fNext := map[], 0, map[], 0;
      mdnMap, mdnNext, asMap, asNext := map[], 0, map[], 0;
      mOrder, mdOrder, asOrder := [], [], [];
    }

    method IncorporateFunction(f: Function)
      requires Valid() && Known(graph, View()) && KnownFunction(graph, f)
      modifies this
      ensures Valid() && View() == Step(graph, old(View()), Incorporate(f))
    {
      theFunction := Some(f);
      functionProcessed := false;
    }

    method PurgeFunction()
      requires Valid() && Known(graph, View())
      modifies this
      ensures Valid() && View() == Step(graph, old(View()), Purge)
    {
      fMap := map[];
      theFunction := None;
      functionProcessed := false;
    }

    method CreateModuleSlot(v: Id)
      requires Valid()
      modifies this`mMap, this`mNext, this`mOrder
      ensures Valid() && mOrder == old(mOrder) + [v]
    {
      mMap := mMap[v := mNext];
      mNext := mNext + 1;
      mOrder := mOrder + [v];
      AssignAppend(map[], 0, old(mOrder), [v]);
      AssignOne(Assign(map[], 0, old(mOrder)), |old(mOrder)|, v);
    }

    method CreateFunctionSlot(v: Id)
      modifies this`fMap, this`fNext
      ensures fMap == old(fMap)[v := old(fNext)] && fNext == old(fNext) + 1
    {
      fMap := fMap[v := fNext];
      fNext := fNext + 1;
    }

    method CreateAttributeSetSlot(a: Id)
      requires Valid()
      modifies this`asMap, this`asNext, this`asOrder
      ensures Valid() && asOrder == AddAll(old(asOrder), [a])
    {
      AssignKeys(map[], 0, asOrder);
      assert [a][1..] == [];
      if a in asMap {
        return;
      }
      asMap := asMap[a := asNext];
      asNext := asNext + 1;
      asOrder := asOrder + [a];
      AssignAppend(map[], 0, old(asOrder), [a]);
      AssignOne(Assign(map[], 0, old(asOrder)), |old(asOrder)|, a);
    }

    /** The recursive search: records the node, then visits its operands in order. */
    method CreateMetadataSlot(n: Node, ghost chain: seq<Node>)
      requires Valid() && n in graph.operands && Chain(graph, chain, n)
      modifies this`mdnMap, this`mdnNext, this`mdOrder
      ensures Valid() && mdOrder == Visit(graph, old(mdOrder), n, chain)
      decreases Unseen(graph, mdOrder), LocalsLeft(graph, chain)
    {
      ghost var inner := [];
      if n !in graph.local {
        AssignKeys(map[], 0, mdOrder);
        if n in mdnMap {
          return;
        }
        mdnMap := mdnMap[n := mdnNext];
        mdnNext := mdnNext + 1;
        mdOrder := mdOrder + [n];
        AssignAppend(map[], 0, old(mdOrder), [n]);
        AssignOne(Assign(map[], 0, old(mdOrder)), |old(mdOrder)|, n);
        assert n in Unseen(graph, old(mdOrder)) && n !in Unseen(graph, mdOrder);
      } else {
        ChainStep(graph, chain, n);
        ChainFresh(graph, chain, n);
        inner := chain + [n];
        assert n in LocalsLeft(graph, chain) && n !in LocalsLeft(graph, inner);
      }
      var ops := graph.operands[n];
      ghost var final := VisitOperands(graph, mdOrder, n, 0, inner);
      ghost var start := mdOrder;
      for i := 0 to |ops|
        invariant Valid() && start <= mdOrder
        invariant VisitOperands(graph, mdOrder, n, i, inner) == final
      {
        assert ops[i] in ops;
        UnseenShrinks(graph, start, mdOrder);
        if ops[i].Some? {
          CreateMetadataSlot(ops[i].value, inner);
        }
      }
    }

    method NumberMetadata(nodes: seq<Node>)
      requires Valid() && forall n <- nodes :: n in graph.operands
      modifies this`mdnMap, this`mdnNext, this`mdOrder
      ensures Valid() && mdOrder == VisitAll(graph, old(mdOrder), nodes)
    {
      for i := 0 to |nodes|
        invariant Valid()
        invariant VisitAll(graph, mdOrder, nodes[i..]) == VisitAll(graph, old(mdOrder), nodes)
      {
        assert nodes[i..][1..] == nodes[i + 1..];
        CreateMetadataSlot(nodes[i], []);
      }
    }

    method NumberGlobals(gs: seq<Global>)
      requires Valid()
      modifies this`mMap, this`mNext, this`mOrder
      ensures Valid() && mOrder == old(mOrder) + Unnamed(gs)
    {
      for i := 0 to |gs|
        invariant Valid() && mOrder + Unnamed(gs[i..]) == old(mOrder) + Unnamed(gs)
      {
        assert gs[i..][1..] == gs[i + 1..];
        Associate(mOrder, if gs[i].named then [] else [gs[i].id], Unnamed(gs[i + 1..]));
        if !gs[i].named {
          CreateModuleSlot(gs[i].id);
        } else {
          assert mOrder + [] == mOrder;
        }
      }
    }

    method NumberNamedMetadata(ns: seq<seq<Node>>)
      requires Valid() && forall n <- NamedRoots(ns) :: n in graph.operands
      modifies this`mdnMap, this`mdnNext, this`mdOrder
      ensures Valid() && mdOrder == VisitAll(graph, old(mdOrder), NamedRoots(ns))
    {
      for i := 0 to |ns|
        invariant Valid() && forall n <- NamedRoots(ns[i..]) :: n in graph.operands
        invariant VisitAll(graph, mdOrder, NamedRoots(ns[i..])) == VisitAll(graph, old(mdOrder), NamedRoots(ns))
      {
        assert ns[i..][1..] == ns[i + 1..];
        VisitAllAppend(graph, mdOrder, ns[i], NamedRoots(ns[i + 1..]));
        NumberMetadata(ns[i]);
      }
    }

    method NumberFunction(f: FunctionDecl)
      requires Valid()
      modifies this`mMap, this`mNext, this`mOrder, this`asMap, this`asNext, this`asOrder
      ensures Valid() && mOrder == old(mOrder) + (if f.named then [] else [f.id])
      ensures asOrder == AddAll(old(asOrder), AttrOf(f.attrs))
    {
      if !f.named {
        CreateModuleSlot(f.id);
      } else {
        assert mOrder + [] == mOrder;
      }
      NumberAttributes(f.attrs);
    }

    method NumberFunctions(fs: seq<FunctionDecl>)
      requires Valid()
      modifies this`mMap, this`mNext, this`mOrder, this`asMap, this`asNext, this`asOrder
      ensures Valid() && mOrder == old(mOrder) + UnnamedFunctions(fs)
      ensures asOrder == AddAll(old(asOrder), DeclAttrs(fs))
    {
      for i := 0 to |fs|
        invariant Valid() && mOrder + UnnamedFunctions(fs[i..]) == old(mOrder) + UnnamedFunctions(fs)
        invariant AddAll(asOrder, DeclAttrs(fs[i..])) == AddAll(old(asOrder), DeclAttrs(fs))
      {
        assert fs[i..][1..] == fs[i + 1..];
        AddAllAppend(asOrder, AttrOf(fs[i].attrs), DeclAttrs(fs[i + 1..]));
        Associate(mOrder, if fs[i].named then [] else [fs[i].id], UnnamedFunctions(fs[i + 1..]));
        NumberFunction(fs[i]);
      }
    }

    method ProcessModule(m: Module)
      requires Valid() && KnownModule(graph, m)
      modifies this`mMap, this`mNext, this`mOrder, this`mdnMap, this`mdnNext, this`mdOrder,
               this`asMap, this`asNext, this`asOrder
      ensures Valid() && mOrder == old(mOrder) + ModuleValues(m)
      ensures mdOrder == VisitAll(graph, old(mdOrder), NamedRoots(m.namedMetadata))
      ensures asOrder == AddAll(old(asOrder), DeclAttrs(m.functions))
    {
      NumberGlobals(m.globals);
      NumberNamedMetadata(m.namedMetadata);
      NumberFunctions(m.functions);
      Associate(old(mOrder), Unnamed(m.globals), UnnamedFunctions(m.functions));
    }

    method NumberAttributes(a: Option<Id>)
      requires Valid()
      modifies this`asMap, this`asNext, this`asOrder
      ensures Valid() && asOrder == AddAll(old(asOrder), AttrOf(a))
    {
      if a.Some? {
        CreateAttributeSetSlot(a.value);
      }
    }

    ghost function Numbers(): Numbering
      reads this
    {
      Numbering(fMap, fNext, mdOrder, asOrder)
    }

    method ProcessInstruction(i: Instruction)
      requires Valid() && KnownPart(graph, InstructionPart(i))
      modifies this`fMap, this`fNext, this`mdnMap, this`mdnNext, this`mdOrder, this`asMap, this`asNext, this`asOrder
      ensures Valid() && Numbers() == Add(graph, old(Numbers()), InstructionPart(i))
    {
      AddOne(graph, Numbers(), i.id, i.isVoid || i.named, InstructionRoots(i), AttrOf(i.attrs));
      if !i.isVoid && !i.named {
        CreateFunctionSlot(i.id);
      }
      NumberReferences(i);
    }

    /** The metadata and attributes that an instruction refers to. */
    method NumberReferences(i: Instruction)
      requires Valid() && forall n <- InstructionRoots(i) :: n in graph.operands
      modifies this`mdnMap, this`mdnNext, this`mdOrder, this`asMap, this`asNext, this`asOrder
      ensures Valid() && mdOrder == VisitAll(graph, old(mdOrder), InstructionRoots(i))
      ensures asOrder == AddAll(old(asOrder), AttrOf(i.attrs))
    {
      RootsOf(graph, i);
      VisitAllAppend(graph, mdOrder, i.intrinsicMetadata, i.attachments);
      NumberMetadata(i.intrinsicMetadata);
      NumberAttributes(i.attrs);
      NumberMetadata(i.attachments);
    }

    /** An argument or a block: it has a slot unless it is named, and nothing else. */
    method ProcessValue(v: Id, named: bool)
      requires Valid()
      modifies this`fMap, this`fNext
      ensures Valid() && KnownPart(graph, ValuePart(v, named))
      ensures Numbers() == Add(graph, old(Numbers()), ValuePart(v, named))
    {
      AddOne(graph, Numbers(), v, named, [], []);
      if !named {
        CreateFunctionSlot(v);
      }
    }

    method ProcessInstructions(insts: seq<Instruction>)
      requires Valid() && KnownPart(graph, InstructionsPart(insts))
      modifies this`fMap, this`fNext, this`mdnMap, this`mdnNext, this`mdOrder, this`asMap, this`asNext, this`asOrder
      ensures Valid() && Numbers() == Add(graph, old(Numbers()), InstructionsPart(insts))
    {
      for j := 0 to |insts|
        invariant Valid() && KnownPart(graph, InstructionsPart(insts[j..]))
        invariant Add(graph, Numbers(), InstructionsPart(insts[j..]))
                  == Add(graph, old(Numbers()), InstructionsPart(insts))
      {
        assert insts[j..][1..] == insts[j + 1..];
        KnownBoth(graph, InstructionPart(insts[j]), InstructionsPart(insts[j + 1..]));
        AddBoth(graph, Numbers(), InstructionPart(insts[j]), InstructionsPart(insts[j + 1..]));
        ProcessInstruction(insts[j]);
      }
    }

    method ProcessArguments(args: seq<Global>)
      requires Valid() && KnownPart(graph, ArgumentsPart(args))
      modifies this`fMap, this`fNext
      ensures Valid() && Numbers() == Add(graph, old(Numbers()), ArgumentsPart(args))
    {
      for j := 0 to |args|
        invariant Valid() && KnownPart(graph, ArgumentsPart(args[j..]))
        invariant Add(graph, Numbers(), ArgumentsPart(args[j..])) == Add(graph, old(Numbers()), ArgumentsPart(args))
      {
        assert args[j..][1..] == args[j + 1..];
        KnownBoth(graph, ValuePart(args[j].id, args[j].named), ArgumentsPart(args[j + 1..]));
        AddBoth(graph, Numbers(), ValuePart(args[j].id, args[j].named), ArgumentsPart(args[j + 1..]));
        ProcessValue(args[j].id, args[j].named);
      }
    }

    method ProcessBlocks(blocks: seq<Block>)
      requires Valid() && KnownPart(graph, BlocksPart(blocks))
      modifies this`fMap, this`fNext, this`mdnMap, this`mdnNext, this`mdOrder, this`asMap, this`asNext, this`asOrder
      ensures Valid() && Numbers() == Add(graph, old(Numbers()), BlocksPart(blocks))
    {
      for j := 0 to |blocks|
        invariant Valid() && KnownPart(graph, BlocksPart(blocks[j..]))
        invariant Add(graph, Numbers(), BlocksPart(blocks[j..])) == Add(graph, old(Numbers()), BlocksPart(blocks))
      {
        var b := blocks[j];
        assert blocks[j..][1..] == blocks[j + 1..];
        ghost var value, body := ValuePart(b.id, b.named), InstructionsPart(b.instructions);
        ghost var rest := BlocksPart(blocks[j + 1..]);
        KnownBoth(graph, Both(value, body), rest);
        KnownBoth(graph, value, body);
        AddBoth(graph, Numbers(), Both(value, body), rest);
        AddBoth(graph, Numbers(), value, body);
        ProcessValue(b.id, b.named);
        ProcessInstructions(b.instructions);
      }
    }

    /** The values of a function from slot 0 on, with what they refer to. */
    method NumberValues(f: Function)
      requires Valid() && KnownPart(graph, ArgumentsPart(f.arguments)) && KnownPart(graph, BlocksPart(f.blocks))
      modifies this`fMap, this`fNext, this`mdnMap, this`mdnNext, this`mdOrder, this`asMap, this`asNext, this`asOrder
      ensures Valid()
      ensures Numbers() == Add(graph, Add(graph, old(Numbers()).(fNext := 0), ArgumentsPart(f.arguments)),
                               BlocksPart(f.blocks))
    {
      fNext := 0;
      ProcessArguments(f.arguments);
      ProcessBlocks(f.blocks);
    }

    method ProcessFunction(f: Function)
      requires Valid() && KnownFunction(graph, f)
      modifies this`fMap, this`fNext, this`mdnMap, this`mdnNext, this`mdOrder, this`asMap, this`asNext, this`asOrder,
               this`functionProcessed
      ensures Valid() && functionProcessed && fMap == Assign(old(fMap), 0, Slotted(Layout(f)))
      ensures mdOrder == VisitAll(graph, old(mdOrder), BlocksRoots(f.blocks))
      ensures asOrder == AddAll(old(asOrder), BlocksAttrs(f.blocks))
    {
      FunctionNumbers(graph, Numbers().(fNext := 0), f);
      NumberValues(f);
      functionProcessed := true;
    }

    method InitializeModule()
      requires Valid() && Known(graph, View())
      modifies this
      ensures Valid()
      ensures View() == if old(theModule).None? then old(View())
                        else ModuleProcessed(graph, old(View()), old(theModule).value).(theModule := None)
    {
      if theModule.Some? {
        ProcessModule(theModule.value);
        theModule := None;
      }
    }

    method Initialize()
      requires Valid() && Known(graph, View())
      modifies this
      ensures Valid() && View() == Initialized(graph, old(View()))
    {
      InitializeModule();
      if theFunction.Some? && !functionProcessed {
        ProcessFunction(theFunction.value);
      }
    }

    method GetLocalSlot(v: Id) returns (slot: int)
      requires Valid() && Known(graph, View())
      modifies this
      ensures Valid() && View() == Step(graph, old(View()), Query)
      ensures slot == SlotIn(View().fMap, v)
    {
      Initialize();
      slot := if v in fMap then fMap[v] else -1;
    }

    method GetGlobalSlot(v: Id) returns (slot: int)
      requires Valid() && Known(graph, View())
      modifies this
      ensures Valid() && View() == Step(graph, old(View()), Query)
      ensures slot == SlotIn(Assign(map[], 0, View().mOrder), v)
    {
      Initialize();
      slot := if v in mMap then mMap[v] else -1;
    }

    method GetMetadataSlot(n: Node) returns (slot: int)
      requires Valid() && Known(graph, View())
      modifies this
      ensures Valid() && View() == Step(graph, old(View()), Query)
      ensures slot == SlotIn(Assign(map[], 0, View().mdOrder), n)
    {
      Initialize();
      slot := if n in mdnMap then mdnMap[n] else -1;
    }

    method GetAttributeGroupSlot(a: Id) returns (slot: int)
      requires Valid() && Known(graph, View())
      modifies this
      ensures Valid() && View() == Step(graph, old(View()), Query)
      ensures slot == SlotIn(Assign(map[], 0, View().asOrder), a)
    {
      Initialize();
      slot := if a in asMap then asMap[a] else -1;
    }
  }
}
