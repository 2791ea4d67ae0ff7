/**
 Which values of a module and of a function get which slot, said over their lists of values
 (full-trace/SlotTracker.h:199-292).
 */
module SlotFacts {
  import opened Wrappers
  import opened Metadata
  import opened SlotTracker
  import opened SlotRuns

  // ---------- module slots ----------

  /** How many of the first i globals are unnamed. */
  ghost function GlobalCount(m: Module, i: nat): nat
    requires i <= |m.globals|
  {
    |set k | 0 <= k < i && !m.globals[k].named|
  }

  /** How many of the first i functions are unnamed. */
  ghost function FunctionCount(m: Module, i: nat): nat
    requires i <= |m.functions|
  {
    |set k | 0 <= k < i && !m.functions[k].named|
  }

  ghost predicate DistinctModuleIds(m: Module) {
    && (forall i, j :: 0 <= i < j < |m.globals| ==> m.globals[i].id != m.globals[j].id)
    && (forall i, j :: 0 <= i < j < |m.functions| ==> m.functions[i].id != m.functions[j].id)
    && (forall i, j :: 0 <= i < |m.globals| && 0 <= j < |m.functions| ==> m.globals[i].id != m.functions[j].id)
  }

  ghost predicate NoValueOf(m: Module, v: Id) {
    && (forall i :: 0 <= i < |m.globals| ==> m.globals[i].id != v)
    && (forall i :: 0 <= i < |m.functions| ==> m.functions[i].id != v)
  }

  /** What getGlobalSlot should answer: a slot for unnamed values only, the number of unnamed globals
      before a global, all unnamed globals and the unnamed functions before a function. */
  ghost predicate ModuleSlot(m: Module, v: Id, slot: int) {
    && (forall i :: 0 <= i < |m.globals| && m.globals[i].id == v ==>
          slot == if m.globals[i].named then -1 else GlobalCount(m, i))
    && (forall i :: 0 <= i < |m.functions| && m.functions[i].id == v ==>
          slot == if m.functions[i].named then -1 else GlobalCount(m, |m.globals|) + FunctionCount(m, i))
    && (NoValueOf(m, v) ==> slot == -1)
  }

  function GlobalPairs(gs: seq<Global>): (r: seq<(Id, bool)>)
    ensures |r| == |gs|
  {
    seq(|gs|, k requires 0 <= k < |gs| => (gs[k].id, !gs[k].named))
  }

  function FunctionPairs(fs: seq<FunctionDecl>): (r: seq<(Id, bool)>)
    ensures |r| == |fs|
  {
    seq(|fs|, k requires 0 <= k < |fs| => (fs[k].id, !fs[k].named))
  }

  lemma {:induction false} UnnamedPairs(gs: seq<Global>)
    ensures Unnamed(gs) == Slotted(GlobalPairs(gs))
    decreases gs
  {
    if gs != [] {
      UnnamedPairs(gs[1..]);
      assert GlobalPairs(gs)[1..] == GlobalPairs(gs[1..]);
    }
  }

  lemma {:induction false} UnnamedFunctionPairs(fs: seq<FunctionDecl>)
    ensures UnnamedFunctions(fs) == Slotted(FunctionPairs(fs))
    decreases fs
  {
    if fs != [] {
      UnnamedFunctionPairs(fs[1..]);
      assert FunctionPairs(fs)[1..] == FunctionPairs(fs[1..]);
    }
  }

  lemma {:induction false} CountGlobals(m: Module, i: nat)
    requires i <= |m.globals|
    ensures GlobalCount(m, i) == UnnamedBefore(GlobalPairs(m.globals), i)
  {
    if i > 0 {
      CountGlobals(m, i - 1);
      var before, all := set k | 0 <= k < i - 1 && !m.globals[k].named, set k | 0 <= k < i && !m.globals[k].named;
      assert all == if m.globals[i - 1].named then before else before + {i - 1};
    }
  }

  lemma {:induction false} CountFunctions(m: Module, i: nat)
    requires i <= |m.functions|
    ensures FunctionCount(m, i) == UnnamedBefore(FunctionPairs(m.functions), i)
  {
    if i > 0 {
      CountFunctions(m, i - 1);
      var before, all := set k | 0 <= k < i - 1 && !m.functions[k].named, set k | 0 <= k < i && !m.functions[k].named;
      assert all == if m.functions[i - 1].named then before else before + {i - 1};
    }
  }

  lemma {:induction false} CountAcross(a: seq<(Id, bool)>, b: seq<(Id, bool)>, i: nat)
    requires i <= |a + b|
    ensures UnnamedBefore(a + b, i)
            == if i <= |a| then UnnamedBefore(a, i) else UnnamedBefore(a, |a|) + UnnamedBefore(b, i - |a|)
  {
    if i > 0 {
      CountAcross(a, b, i - 1);
    }
  }

  /** In a list of different values the i-th has its rank, if it has a slot, and else no slot. */
  lemma RankedAt(layout: seq<(Id, bool)>, i: nat)
    requires DistinctIds(layout) && i < |layout|
    ensures SlotIn(Assign(map[], 0, Slotted(layout)), layout[i].0)
            == if layout[i].1 then UnnamedBefore(layout, i) else -1
  {
    SlottedDistinct(layout);
    SlotsBijective(Slotted(layout));
    if layout[i].1 {
      SlottedRank(layout, i);
    } else if layout[i].0 in Slotted(layout) {
      var k :| 0 <= k < |Slotted(layout)| && Slotted(layout)[k] == layout[i].0;
      var j := SlottedFrom(layout, k);
    }
  }

  lemma NotListed(layout: seq<(Id, bool)>, v: Id)
    requires DistinctIds(layout) && forall i :: 0 <= i < |layout| ==> layout[i].0 != v
    ensures SlotIn(Assign(map[], 0, Slotted(layout)), v) == -1
  {
    SlottedDistinct(layout);
    SlotsBijective(Slotted(layout));
    if v in Slotted(layout) {
      var k :| 0 <= k < |Slotted(layout)| && Slotted(layout)[k] == v;
      var j := SlottedFrom(layout, k);
    }
  }

  function ModulePairs(m: Module): (r: seq<(Id, bool)>)
    ensures |r| == |m.globals| + |m.functions|
  {
    GlobalPairs(m.globals) + FunctionPairs(m.functions)
  }

  lemma ModulePairsSlotted(m: Module)
    ensures ModuleValues(m) == Slotted(ModulePairs(m))
  {
    UnnamedPairs(m.globals);
    UnnamedFunctionPairs(m.functions);
    SlottedAppend(GlobalPairs(m.globals), FunctionPairs(m.functions));
  }

  lemma ModulePairsDistinct(m: Module)
    requires DistinctModuleIds(m)
    ensures DistinctIds(ModulePairs(m))
  {
    var n := |m.globals|;
    forall i, j | 0 <= i < j < |ModulePairs(m)|
      ensures ModulePairs(m)[i].0 != ModulePairs(m)[j].0
    {
      assert i >= n ==> ModulePairs(m)[i].0 == m.functions[i - n].id;
      assert j >= n ==> ModulePairs(m)[j].0 == m.functions[j - n].id;
    }
  }

  lemma GlobalRank(m: Module, i: nat)
    requires i < |m.globals| && DistinctIds(ModulePairs(m))
    ensures SlotIn(Assign(map[], 0, Slotted(ModulePairs(m))), m.globals[i].id)
            == if m.globals[i].named then -1 else GlobalCount(m, i)
  {
    RankedAt(ModulePairs(m), i);
    CountAcross(GlobalPairs(m.globals), FunctionPairs(m.functions), i);
    CountGlobals(m, i);
    assert ModulePairs(m)[i] == (m.globals[i].id, !m.globals[i].named);
  }

  lemma FunctionRank(m: Module, i: nat)
    requires i < |m.functions| && DistinctIds(ModulePairs(m))
    ensures SlotIn(Assign(map[], 0, Slotted(ModulePairs(m))), m.functions[i].id)
            == if m.functions[i].named then -1 else GlobalCount(m, |m.globals|) + FunctionCount(m, i)
  {
    var n := |m.globals|;
    RankedAt(ModulePairs(m), n + i);
    CountAcross(GlobalPairs(m.globals), FunctionPairs(m.functions), n + i);
    CountGlobals(m, n);
    CountFunctions(m, i);
    assert ModulePairs(m)[n + i] == (m.functions[i].id, !m.functions[i].named);
  }

  lemma NoRank(m: Module, v: Id)
    requires NoValueOf(m, v) && DistinctIds(ModulePairs(m))
    ensures SlotIn(Assign(map[], 0, Slotted(ModulePairs(m))), v) == -1
  {
    var n := |m.globals|;
    forall i | 0 <= i < |ModulePairs(m)|
      ensures ModulePairs(m)[i].0 != v
    {
      assert ModulePairs(m)[i].0 == if i < n then m.globals[i].id else m.functions[i - n].id;
    }
    NotListed(ModulePairs(m), v);
  }

  lemma ModuleValuesSlots(m: Module, v: Id)
    requires DistinctModuleIds(m)
    ensures ModuleSlot(m, v, SlotIn(Assign(map[], 0, ModuleValues(m)), v))
  {
    ModulePairsSlotted(m);
    ModulePairsDistinct(m);
    forall i | 0 <= i < |m.globals| && m.globals[i].id == v
      ensures SlotIn(Assign(map[], 0, ModuleValues(m)), v) == if m.globals[i].named then -1 else GlobalCount(m, i)
    {
      GlobalRank(m, i);
    }
    forall i | 0 <= i < |m.functions| && m.functions[i].id == v
      ensures SlotIn(Assign(map[], 0, ModuleValues(m)), v)
              == if m.functions[i].named then -1 else GlobalCount(m, |m.globals|) + FunctionCount(m, i)
    {
      FunctionRank(m, i);
    }
    if NoValueOf(m, v) {
      NoRank(m, v);
    }
  }

  lemma {:induction false} ModuleQueried(g: Graph, t: Tracker, ops: seq<Op>)
    requires Known(g, t) && KnownOps(g, ops + [Query])
    ensures Run(g, t, ops + [Query]).theModule == None
    decreases ops
  {
    if ops == [] {
      assert ([] + [Query])[1..] == [];
    } else {
      assert (ops + [Query])[1..] == ops[1..] + [Query];
      ModuleQueried(g, Step(g, t, ops[0]), ops[1..]);
    }
  }

  /**
   Module slots, after any run that ends with a query on a fresh tracker: the unnamed globals count up
   from 0, the unnamed functions go on from there, and named ones have no slot.
   */
  lemma ModuleSlots(g: Graph, m: Module, f: Option<Function>, ops: seq<Op>, v: Id)
    requires Known(g, Fresh(Some(m), f)) && KnownOps(g, ops + [Query]) && DistinctModuleIds(m)
    ensures ModuleSlot(m, v, SlotIn(Assign(map[], 0, Run(g, Fresh(Some(m), f), ops + [Query]).mOrder), v))
  {
    FreshInvariant(g, m, f);
    GlobalStability(g, m, Fresh(Some(m), f), ops + [Query]);
    ModuleQueried(g, Fresh(Some(m), f), ops);
    ModuleValuesSlots(m, v);
  }

  // ---------- function slots ----------

  /** Where a value of a function stands. */
  datatype Place = Argument(k: nat) | BlockAt(b: nat) | InstructionAt(b: nat, k: nat)

  predicate In(f: Function, p: Place) {
    match p
    case Argument(k) => k < |f.arguments|
    case BlockAt(b) => b < |f.blocks|
    case InstructionAt(b, k) => b < |f.blocks| && k < |f.blocks[b].instructions|
  }

  function IdAt(f: Function, p: Place): Id
    requires In(f, p)
  {
    match p
    case Argument(k) => f.arguments[k].id
    case BlockAt(b) => f.blocks[b].id
    case InstructionAt(b, k) => f.blocks[b].instructions[k].id
  }

  /** Unnamed arguments, blocks and instructions with a value get slots. */
  predicate SlotAt(f: Function, p: Place)
    requires In(f, p)
  {
    match p
    case Argument(k) => !f.arguments[k].named
    case BlockAt(b) => !f.blocks[b].named
    case InstructionAt(b, k) => !f.blocks[b].instructions[k].isVoid && !f.blocks[b].instructions[k].named
  }

  /** All arguments, then block by block: the block, then its instructions. */
  predicate Before(p: Place, q: Place) {
    match (p, q)
    case (Argument(k), Argument(l)) => k < l
    case (Argument(_), _) => true
    case (_, Argument(_)) => false
    case (BlockAt(b), BlockAt(c)) => b < c
    case (BlockAt(b), InstructionAt(c, _)) => b <= c
    case (InstructionAt(b, _), BlockAt(c)) => b < c
    case (InstructionAt(b, k), InstructionAt(c, l)) => b < c || (b == c && k < l)
  }

  ghost predicate DistinctPlaces(f: Function) {
    forall p, q :: In(f, p) && In(f, q) && p != q ==> IdAt(f, p) != IdAt(f, q)
  }

  /** The slots count up from 0 in the order of the function, without gaps, and nothing else has one. */
  ghost predicate CountsUp(f: Function, fMap: map<Id, nat>) {
    && (forall p :: In(f, p) ==> (IdAt(f, p) in fMap <==> SlotAt(f, p)))
    && (forall v <- fMap :: exists p :: In(f, p) && IdAt(f, p) == v)
    && (forall p, q :: In(f, p) && In(f, q) && SlotAt(f, p) && SlotAt(f, q) && Before(p, q) ==>
          IdAt(f, p) in fMap && IdAt(f, q) in fMap && fMap[IdAt(f, p)] < fMap[IdAt(f, q)])
    && (forall p, n: nat :: In(f, p) && IdAt(f, p) in fMap && n < fMap[IdAt(f, p)] ==> n in fMap.Values)
  }

  /** Where the b-th block starts in the layout. */
  function Start(bs: seq<Block>, b: nat): nat
    requires b <= |bs|
    decreases bs
  {
    if b == 0 then 0 else 1 + |bs[0].instructions| + Start(bs[1..], b - 1)
  }

  function Index(f: Function, p: Place): nat
    requires In(f, p)
  {
    match p
    case Argument(k) => k
    case BlockAt(b) => |f.arguments| + Start(f.blocks, b)
    case InstructionAt(b, k) => |f.arguments| + Start(f.blocks, b) + 1 + k
  }

  lemma {:induction false} ArgumentLayoutAt(gs: seq<Global>)
    ensures |ArgumentLayout(gs)| == |gs|
    ensures forall k :: 0 <= k < |gs| ==> ArgumentLayout(gs)[k] == (gs[k].id, !gs[k].named)
    decreases gs
  {
    if gs != [] {
      ArgumentLayoutAt(gs[1..]);
    }
  }

  lemma {:induction false} InstructionLayoutAt(insts: seq<Instruction>)
    ensures |InstructionLayout(insts)| == |insts|
    ensures forall k :: 0 <= k < |insts| ==>
              InstructionLayout(insts)[k] == (insts[k].id, !insts[k].isVoid && !insts[k].named)
    decreases insts
  {
    if insts != [] {
      InstructionLayoutAt(insts[1..]);
    }
  }

  lemma {:induction false} BlockLayoutAt(bs: seq<Block>, b: nat)
    requires b < |bs|
    ensures var s, n := Start(bs, b), |bs[b].instructions|;
            && s + 1 + n <= |BlockLayout(bs)|
            && BlockLayout(bs)[s] == (bs[b].id, !bs[b].named)
            && BlockLayout(bs)[s + 1..s + 1 + n] == InstructionLayout(bs[b].instructions)
    decreases bs
  {
    InstructionLayoutAt(bs[0].instructions);
    var first := [(bs[0].id, !bs[0].named)] + InstructionLayout(bs[0].instructions);
    assert BlockLayout(bs) == first + BlockLayout(bs[1..]);
    if b > 0 {
      BlockLayoutAt(bs[1..], b - 1);
    }
  }

  lemma LayoutAt(f: Function, p: Place)
    requires In(f, p)
    ensures Index(f, p) < |Layout(f)| && Layout(f)[Index(f, p)] == (IdAt(f, p), SlotAt(f, p))
  {
    ArgumentLayoutAt(f.arguments);
    match p
    case Argument(k) =>
    case BlockAt(b) => BlockLayoutAt(f.blocks, b);
    case InstructionAt(b, k) =>
      var s, insts := Start(f.blocks, b), f.blocks[b].instructions;
      BlockLayoutAt(f.blocks, b);
      InstructionLayoutAt(insts);
      assert BlockLayout(f.blocks)[s + 1 + k] == BlockLayout(f.blocks)[s + 1..s + 1 + |insts|][k];
  }

  lemma {:induction false} StartsRise(bs: seq<Block>, b: nat, c: nat)
    requires b < c <= |bs|
    ensures Start(bs, b) + 1 + |bs[b].instructions| <= Start(bs, c)
    decreases bs
  {
    if b > 0 {
      StartsRise(bs[1..], b - 1, c - 1);
    }
  }

  lemma LayoutOrder(f: Function, p: Place, q: Place)
    requires In(f, p) && In(f, q) && Before(p, q)
    ensures Index(f, p) < Index(f, q)
  {
    if !p.Argument? && !q.Argument? && p.b < q.b {
      StartsRise(f.blocks, p.b, q.b);
    }
  }

  lemma {:induction false} BlockPlace(bs: seq<Block>, i: nat) returns (b: nat)
    requires i < |BlockLayout(bs)|
    ensures b < |bs| && Start(bs, b) <= i <= Start(bs, b) + |bs[b].instructions|
    decreases bs
  {
    InstructionLayoutAt(bs[0].instructions);
    var n := 1 + |bs[0].instructions|;
    if i < n {
      b := 0;
    } else {
      var c := BlockPlace(bs[1..], i - n);
      b := c + 1;
    }
  }

  lemma PlaceOf(f: Function, i: nat) returns (p: Place)
    requires i < |Layout(f)|
    ensures In(f, p) && Index(f, p) == i
  {
    ArgumentLayoutAt(f.arguments);
    if i < |f.arguments| {
      p := Argument(i);
    } else {
      var j := i - |f.arguments|;
      var b := BlockPlace(f.blocks, j);
      p := if j == Start(f.blocks, b) then BlockAt(b) else InstructionAt(b, j - Start(f.blocks, b) - 1);
    }
  }

  lemma LayoutDistinct(f: Function)
    requires DistinctPlaces(f)
    ensures DistinctIds(Layout(f))
  {
    forall i, j | 0 <= i < j < |Layout(f)|
      ensures Layout(f)[i].0 != Layout(f)[j].0
    {
      var p := PlaceOf(f, i);
      var q := PlaceOf(f, j);
      LayoutAt(f, p);
      LayoutAt(f, q);
    }
  }

  lemma {:induction false} RanksRise(layout: seq<(Id, bool)>, i: nat, j: nat)
    requires i < j <= |layout| && layout[i].1
    ensures UnnamedBefore(layout, i) < UnnamedBefore(layout, j)
    decreases j
  {
    if i < j - 1 {
      RanksRise(layout, i, j - 1);
    }
  }

  /** The slot of the value at a place. */
  lemma SlotOfPlace(f: Function, p: Place)
    requires In(f, p) && DistinctPlaces(f)
    ensures Index(f, p) < |Layout(f)|
    ensures SlotIn(Assign(map[], 0, Slotted(Layout(f))), IdAt(f, p))
            == if SlotAt(f, p) then UnnamedBefore(Layout(f), Index(f, p)) else -1
  {
    LayoutDistinct(f);
    LayoutAt(f, p);
    RankedAt(Layout(f), Index(f, p));
  }

  lemma SlotsInOrder(f: Function, p: Place, q: Place)
    requires In(f, p) && In(f, q) && DistinctPlaces(f) && SlotAt(f, p) && SlotAt(f, q) && Before(p, q)
    ensures var fMap := Assign(map[], 0, Slotted(Layout(f)));
            IdAt(f, p) in fMap && IdAt(f, q) in fMap && fMap[IdAt(f, p)] < fMap[IdAt(f, q)]
  {
    SlotOfPlace(f, p);
    SlotOfPlace(f, q);
    LayoutAt(f, p);
    LayoutAt(f, q);
    LayoutOrder(f, p, q);
    RanksRise(Layout(f), Index(f, p), Index(f, q));
  }

  lemma PlaceOfSlot(f: Function, v: Id) returns (p: Place)
    requires v in Assign(map[], 0, Slotted(Layout(f)))
    ensures In(f, p) && IdAt(f, p) == v
  {
    var slotted := Slotted(Layout(f));
    AssignKeys(map[], 0, slotted);
    var k :| 0 <= k < |slotted| && slotted[k] == v;
    var i := SlottedFrom(Layout(f), k);
    p := PlaceOf(f, i);
    LayoutAt(f, p);
  }

  lemma NoGaps(f: Function, v: Id, n: nat)
    requires DistinctPlaces(f)
    requires var fMap := Assign(map[], 0, Slotted(Layout(f)));
             v in fMap && n < fMap[v]
    ensures n in Assign(map[], 0, Slotted(Layout(f))).Values
  {
    var slotted := Slotted(Layout(f));
    LayoutDistinct(f);
    SlottedDistinct(Layout(f));
    AssignKeys(map[], 0, slotted);
    SlotsBijective(slotted);
    var k :| 0 <= k < |slotted| && slotted[k] == v;
    AssignPosition(map[], 0, slotted, k);
    AssignPosition(map[], 0, slotted, n);
  }

  lemma LayoutCountsUp(f: Function)
    requires DistinctPlaces(f)
    ensures CountsUp(f, Assign(map[], 0, Slotted(Layout(f))))
  {
    var fMap := Assign(map[], 0, Slotted(Layout(f)));
    forall p | In(f, p)
      ensures IdAt(f, p) in fMap <==> SlotAt(f, p)
    {
      SlotOfPlace(f, p);
    }
    forall v | v in fMap
      ensures exists p :: In(f, p) && IdAt(f, p) == v
    {
      var p := PlaceOfSlot(f, v);
    }
    forall p, q | In(f, p) && In(f, q) && SlotAt(f, p) && SlotAt(f, q) && Before(p, q)
      ensures IdAt(f, p) in fMap && IdAt(f, q) in fMap && fMap[IdAt(f, p)] < fMap[IdAt(f, q)]
    {
      SlotsInOrder(f, p, q);
    }
    forall p, n: nat | In(f, p) && IdAt(f, p) in fMap && n < fMap[IdAt(f, p)]
      ensures n in fMap.Values
    {
      NoGaps(f, IdAt(f, p), n);
    }
  }

  /**
   Function slots, in every run in which a purge precedes each further incorporation: after a query the
   unnamed arguments, blocks and instructions that have a value count up from 0 in the order of the
   current function, and nothing else has a slot.
   */
  lemma FunctionSlots(g: Graph, m: Option<Module>, first: Option<Function>, ops: seq<Op>)
    requires Known(g, Fresh(m, first)) && KnownOps(g, ops + [Query]) && PurgesFirst(first, ops + [Query])
    ensures var u := Run(g, Fresh(m, first), ops + [Query]);
            match u.theFunction
            case Some(f) => DistinctPlaces(f) ==> CountsUp(f, u.fMap)
            case None => u.fMap == map[]
  {
    var t := Fresh(m, first);
    RunKeepsFunction(g, t, ops + [Query]);
    EndsProcessed(g, t, ops);
    var u := Run(g, t, ops + [Query]);
    if u.theFunction.Some? && DistinctPlaces(u.theFunction.value) {
      LayoutCountsUp(u.theFunction.value);
    }
  }
}
