/** What every run of incorporations, purges and queries on a slot tracker keeps. */
module SlotRuns {
  import opened Wrappers
  import opened Metadata
  import opened SlotTracker

  ghost predicate KnownOps(g: Graph, ops: seq<Op>) {
    forall op <- ops :: op.Incorporate? ==> KnownFunction(g, op.f)
  }

  ghost function Run(g: Graph, t: Tracker, ops: seq<Op>): (r: Tracker)
    requires Known(g, t) && KnownOps(g, ops)
    ensures Known(g, r)
    decreases ops
  {
    if ops == [] then t else Run(g, Step(g, t, ops[0]), ops[1..])
  }

  // ---------- slots are positions ----------

  /** In a list without repetition the slots are exactly 0, ..., n-1, one for each element. */
  lemma SlotsBijective(order: seq<Id>)
    requires Distinct(order)
    ensures forall x :: SlotIn(Assign(map[], 0, order), x) == -1 <==> x !in order
    ensures forall i :: 0 <= i < |order| ==> SlotIn(Assign(map[], 0, order), order[i]) == i
  {
    AssignKeys(map[], 0, order);
    forall i | 0 <= i < |order|
      ensures SlotIn(Assign(map[], 0, order), order[i]) == i
    {
      AssignPosition(map[], 0, order, i);
    }
  }

  /** Growing at the end never changes a slot that was given out. */
  lemma SlotsStable(before: seq<Id>, after: seq<Id>, x: Id)
    requires Distinct(before) && Distinct(after) && before <= after && x in before
    ensures SlotIn(Assign(map[], 0, after), x) == SlotIn(Assign(map[], 0, before), x)
  {
    SlotsBijective(before);
    SlotsBijective(after);
    var i :| 0 <= i < |before| && before[i] == x;
    assert after[i] == x;
  }

  // ---------- module, metadata and attribute slots ----------

  /** A metadata numbering in which no node has two numbers and every operand is numbered. */
  ghost predicate Complete(g: Graph, order: seq<Node>) {
    NumbersRecorded(g, order) && OperandClosed(g, order)
  }

  lemma {:induction false} VisitAllComplete(g: Graph, order: seq<Node>, roots: seq<Node>)
    requires g.Valid() && g.LocalsAcyclic() && (forall n <- roots :: n in g.operands) && Complete(g, order)
    ensures Complete(g, VisitAll(g, order, roots))
    ensures forall k :: k in VisitAll(g, order, roots) <==>
              k in order || (k in g.operands && g.Recorded(k) && exists n :: n in roots && Reach(g, n, k))
    decreases roots
  {
    if roots != [] {
      NumberingReachable(g, order, roots[0]);
      var next := Visit(g, order, roots[0], []);
      VisitAllComplete(g, next, roots[1..]);
      forall k
        ensures k in VisitAll(g, order, roots) <==>
                k in order || (k in g.operands && g.Recorded(k) && exists n :: n in roots && Reach(g, n, k))
      {
        assert roots == [roots[0]] + roots[1..];
      }
    }
  }

  /** Module contents come first; what they were numbered with stays the beginning. */
  ghost predicate ModuleFirst(g: Graph, m: Module, t: Tracker)
    requires g.Valid() && g.LocalsAcyclic() && KnownModule(g, m)
  {
    match t.theModule
    case Some(n) => n == m && t.mOrder == [] && t.mdOrder == [] && t.asOrder == []
    case None =>
      && t.mOrder == ModuleValues(m)
      && VisitAll(g, [], NamedRoots(m.namedMetadata)) <= t.mdOrder
      && AddAll([], DeclAttrs(m.functions)) <= t.asOrder
  }

  ghost predicate GlobalInvariant(g: Graph, m: Module, t: Tracker)
    requires g.Valid() && g.LocalsAcyclic() && KnownModule(g, m)
  {
    ModuleFirst(g, m, t) && Complete(g, t.mdOrder) && Distinct(t.asOrder)
  }

  ghost predicate Extends(t: Tracker, u: Tracker) {
    t.mOrder <= u.mOrder && t.mdOrder <= u.mdOrder && t.asOrder <= u.asOrder
  }

  lemma ModuleKeeps(g: Graph, m: Module, t: Tracker)
    requires Known(g, t) && KnownModule(g, m) && GlobalInvariant(g, m, t) && t.theModule.Some?
    ensures GlobalInvariant(g, m, ModuleProcessed(g, t, m).(theModule := None))
  {
    VisitAllComplete(g, t.mdOrder, NamedRoots(m.namedMetadata));
    AddAllExact(t.asOrder, DeclAttrs(m.functions));
  }

  lemma FunctionKeeps(g: Graph, m: Module, t: Tracker, f: Function)
    requires Known(g, t) && KnownModule(g, m) && KnownFunction(g, f) && GlobalInvariant(g, m, t) && t.theModule.None?
    ensures GlobalInvariant(g, m, FunctionProcessed(g, t, f)) && Extends(t, FunctionProcessed(g, t, f))
  {
    VisitAllComplete(g, t.mdOrder, BlocksRoots(f.blocks));
    AddAllExact(t.asOrder, BlocksAttrs(f.blocks));
  }

  lemma StepKeepsGlobals(g: Graph, m: Module, t: Tracker, op: Op)
    requires Known(g, t) && KnownModule(g, m) && GlobalInvariant(g, m, t) && KnownOps(g, [op])
    ensures GlobalInvariant(g, m, Step(g, t, op)) && Extends(t, Step(g, t, op))
  {
    assert op in [op];
    if op.Query? {
      var u := t;
      if t.theModule.Some? {
        ModuleKeeps(g, m, t);
        u := ModuleProcessed(g, t, m).(theModule := None);
      }
      if u.theFunction.Some? && !u.processed {
        FunctionKeeps(g, m, u, u.theFunction.value);
      }
    }
  }

  /**
   Global slot stability: over every run the module, metadata and attribute numberings only grow
   at their end, keep no element twice, list the module's contents before those of any function -
   however late the first query comes - and the metadata numbering stays closed under operands.
   */
  lemma {:induction false} GlobalStability(g: Graph, m: Module, t: Tracker, ops: seq<Op>)
    requires Known(g, t) && KnownModule(g, m) && KnownOps(g, ops) && GlobalInvariant(g, m, t)
    ensures GlobalInvariant(g, m, Run(g, t, ops)) && Extends(t, Run(g, t, ops))
    decreases ops
  {
    if ops != [] {
      KnownParts(g, ops);
      var u := Step(g, t, ops[0]);
      assert GlobalInvariant(g, m, u) && Extends(t, u) by {
        StepKeepsGlobals(g, m, t, ops[0]);
      }
      assert Run(g, t, ops) == Run(g, u, ops[1..]);
      GlobalStability(g, m, u, ops[1..]);
      ExtendsTwice(t, u, Run(g, u, ops[1..]));
    }
  }

  lemma KnownParts(g: Graph, ops: seq<Op>)
    requires ops != [] && KnownOps(g, ops)
    ensures KnownOps(g, [ops[0]]) && KnownOps(g, ops[1..])
  {
    assert ops[0] in ops;
  }

  lemma ExtendsTwice(t: Tracker, u: Tracker, v: Tracker)
    requires Extends(t, u) && Extends(u, v)
    ensures Extends(t, v)
  {
  }

  lemma FreshInvariant(g: Graph, m: Module, f: Option<Function>)
    requires Known(g, Fresh(Some(m), f))
    ensures KnownModule(g, m) && GlobalInvariant(g, m, Fresh(Some(m), f))
  {
  }

  /** A number that some query could have returned is returned by every later query. */
  lemma AnswersStable(g: Graph, m: Module, f: Option<Function>, before: seq<Op>, after: seq<Op>, x: Id)
    requires Known(g, Fresh(Some(m), f)) && KnownOps(g, before) && KnownOps(g, after)
    requires Distinct(ModuleValues(m))
    ensures var t := Run(g, Fresh(Some(m), f), before);
            var u := Run(g, t, after);
            && (x in t.mOrder ==> SlotIn(Assign(map[], 0, u.mOrder), x) == SlotIn(Assign(map[], 0, t.mOrder), x))
            && (x in t.mdOrder ==> SlotIn(Assign(map[], 0, u.mdOrder), x) == SlotIn(Assign(map[], 0, t.mdOrder), x))
            && (x in t.asOrder ==> SlotIn(Assign(map[], 0, u.asOrder), x) == SlotIn(Assign(map[], 0, t.asOrder), x))
  {
    FreshInvariant(g, m, f);
    GlobalStability(g, m, Fresh(Some(m), f), before);
    var t := Run(g, Fresh(Some(m), f), before);
    GlobalStability(g, m, t, after);
    var u := Run(g, t, after);
    if x in t.mOrder {
      SlotsStable(t.mOrder, u.mOrder, x);
    }
    if x in t.mdOrder {
      SlotsStable(t.mdOrder, u.mdOrder, x);
    }
    if x in t.asOrder {
      SlotsStable(t.asOrder, u.asOrder, x);
    }
  }

  // ---------- function slots ----------

  /** The number of unnamed, non-void values among the first `i` of the layout. */
  function UnnamedBefore(layout: seq<(Id, bool)>, i: nat): nat
    requires i <= |layout|
  {
    if i == 0 then 0 else UnnamedBefore(layout, i - 1) + (if layout[i - 1].1 then 1 else 0)
  }

  ghost predicate DistinctIds(layout: seq<(Id, bool)>) {
    forall i, j :: 0 <= i < j < |layout| ==> layout[i].0 != layout[j].0
  }

  /** What getLocalSlot should answer for `v` when `f` is the current function. */
  ghost predicate IsRank(f: Function, v: Id, slot: int) {
    if (exists i :: 0 <= i < |Layout(f)| && Layout(f)[i] == (v, true))
    then exists i :: 0 <= i < |Layout(f)| && Layout(f)[i] == (v, true) && slot == UnnamedBefore(Layout(f), i)
    else slot == -1
  }

  lemma SlottedOne(x: (Id, bool))
    ensures Slotted([x]) == if x.1 then [x.0] else []
  {
    var one := [x];
    assert one[1..] == [];
  }

  lemma {:induction false} SlottedPrefix(layout: seq<(Id, bool)>, i: nat)
    requires i <= |layout|
    ensures |Slotted(layout[..i])| == UnnamedBefore(layout, i)
    ensures Slotted(layout[..i]) <= Slotted(layout)
  {
    assert layout == layout[..i] + layout[i..];
    SlottedAppend(layout[..i], layout[i..]);
    if i > 0 {
      SlottedPrefix(layout, i - 1);
      assert layout[..i] == layout[..i - 1] + [layout[i - 1]];
      SlottedAppend(layout[..i - 1], [layout[i - 1]]);
      SlottedOne(layout[i - 1]);
    }
  }

  /** The i-th value of the layout, if it has a slot, stands at its rank. */
  lemma SlottedRank(layout: seq<(Id, bool)>, i: nat)
    requires i < |layout| && layout[i].1
    ensures UnnamedBefore(layout, i) < |Slotted(layout)|
    ensures Slotted(layout)[UnnamedBefore(layout, i)] == layout[i].0
  {
    SlottedPrefix(layout, i);
    SlottedPrefix(layout, i + 1);
    assert layout[..i + 1] == layout[..i] + [layout[i]];
    SlottedAppend(layout[..i], [layout[i]]);
    SlottedOne(layout[i]);
    var k := UnnamedBefore(layout, i);
    assert Slotted(layout[..i + 1])[k] == layout[i].0;
  }

  lemma {:induction false} SlottedFrom(layout: seq<(Id, bool)>, k: nat) returns (i: nat)
    requires k < |Slotted(layout)|
    ensures i < |layout| && layout[i] == (Slotted(layout)[k], true)
    decreases layout
  {
    var first := if layout[0].1 then [layout[0].0] else [];
    if k < |first| {
      i := 0;
    } else {
      var j := SlottedFrom(layout[1..], k - |first|);
      i := j + 1;
    }
  }

  lemma {:induction false} SlottedDistinct(layout: seq<(Id, bool)>)
    requires DistinctIds(layout)
    ensures Distinct(Slotted(layout))
    decreases layout
  {
    if layout != [] {
      SlottedDistinct(layout[1..]);
      forall k | 0 <= k < |Slotted(layout[1..])|
        ensures Slotted(layout[1..])[k] != layout[0].0
      {
        var i := SlottedFrom(layout[1..], k);
        assert layout[1..][i] == layout[i + 1];
      }
    }
  }

  /** With an empty map to start from, the answers for a processed function are ranks. */
  lemma ProcessedRanks(f: Function, v: Id)
    requires DistinctIds(Layout(f))
    ensures IsRank(f, v, SlotIn(Assign(map[], 0, Slotted(Layout(f))), v))
  {
    var layout := Layout(f);
    var slotted := Slotted(layout);
    SlottedDistinct(layout);
    SlotsBijective(slotted);
    if i :| 0 <= i < |layout| && layout[i] == (v, true) {
      SlottedRank(layout, i);
    } else if v in slotted {
      var k :| 0 <= k < |slotted| && slotted[k] == v;
      var i := SlottedFrom(layout, k);
    }
  }

  /** A purge comes before each incorporation after the first. */
  ghost predicate PurgesFirst(current: Option<Function>, ops: seq<Op>)
    decreases ops
  {
    ops == [] ||
    match ops[0]
    case Incorporate(f) => current.None? && PurgesFirst(Some(f), ops[1..])
    case Purge => PurgesFirst(None, ops[1..])
    case Query => PurgesFirst(current, ops[1..])
  }

  ghost predicate FunctionInvariant(t: Tracker) {
    t.fMap == if t.theFunction.Some? && t.processed
              then Assign(map[], 0, Slotted(Layout(t.theFunction.value)))
              else map[]
  }

  lemma {:induction false} RunKeepsFunction(g: Graph, t: Tracker, ops: seq<Op>)
    requires Known(g, t) && KnownOps(g, ops) && PurgesFirst(t.theFunction, ops) && FunctionInvariant(t)
    ensures FunctionInvariant(Run(g, t, ops))
    decreases ops
  {
    if ops != [] {
      RunKeepsFunction(g, Step(g, t, ops[0]), ops[1..]);
    }
  }

  /**
   Function slots are ranks: in every run in which a purge precedes each further incorporation,
   a query for `v` answers the number of unnamed, non-void arguments, blocks and instructions
   before it when it is one of them in the current function, and -1 otherwise.
   */
  lemma FunctionSlotsAreRanks(g: Graph, t: Tracker, ops: seq<Op>, v: Id)
    requires Known(g, t) && KnownOps(g, ops + [Query]) && PurgesFirst(t.theFunction, ops + [Query])
    requires FunctionInvariant(t)
    ensures var u := Run(g, t, ops + [Query]);
            match u.theFunction
            case Some(f) => DistinctIds(Layout(f)) ==> IsRank(f, v, SlotIn(u.fMap, v))
            case None => SlotIn(u.fMap, v) == -1
  {
    RunKeepsFunction(g, t, ops + [Query]);
    EndsProcessed(g, t, ops);
    var u := Run(g, t, ops + [Query]);
    if u.theFunction.Some? && DistinctIds(Layout(u.theFunction.value)) {
      ProcessedRanks(u.theFunction.value, v);
    }
  }

  lemma {:induction false} EndsProcessed(g: Graph, t: Tracker, ops: seq<Op>)
    requires Known(g, t) && KnownOps(g, ops + [Query])
    ensures var u := Run(g, t, ops + [Query]);
            u.theFunction.Some? ==> u.processed
    decreases ops
  {
    if ops == [] {
      assert ([] + [Query])[1..] == [];
    } else {
      assert (ops + [Query])[1..] == ops[1..] + [Query];
      EndsProcessed(g, Step(g, t, ops[0]), ops[1..]);
    }
  }

  // ---------- without purges ----------

  /** A query answers the rank of every value in the function. */
  ghost predicate AllRanks(f: Function, fMap: map<Id, nat>) {
    forall v :: IsRank(f, v, SlotIn(fMap, v))
  }

  lemma StaleValue(m: map<Id, nat>, f: Function, v: Id)
    requires DistinctIds(Layout(f))
    ensures IsRank(f, v, SlotIn(Assign(m, 0, Slotted(Layout(f))), v)) <==> v !in m || v in Slotted(Layout(f))
  {
    AssignKeys(m, 0, Slotted(Layout(f)));
    if v in Slotted(Layout(f)) {
      OwnSlot(m, f, v);
    } else {
      NotSlotted(f, v);
    }
  }

  ghost predicate OnlySlotsOf(f: Function, m: map<Id, nat>) {
    forall v <- m :: v in Slotted(Layout(f))
  }

  /** Numbering a function into a map that holds other slots gives ranks for every value if and
      only if all that is in the map are slotted values of this function. */
  lemma StaleMap(m: map<Id, nat>, f: Function)
    requires DistinctIds(Layout(f))
    ensures AllRanks(f, Assign(m, 0, Slotted(Layout(f)))) <==> OnlySlotsOf(f, m)
  {
    var after := Assign(m, 0, Slotted(Layout(f)));
    forall v
      ensures IsRank(f, v, SlotIn(after, v)) <==> v !in m || v in Slotted(Layout(f))
    {
      StaleValue(m, f, v);
    }
    if AllRanks(f, after) {
      forall v | v in m
        ensures v in Slotted(Layout(f))
      {
        assert IsRank(f, v, SlotIn(after, v));
      }
    }
    if OnlySlotsOf(f, m) {
      forall v
        ensures IsRank(f, v, SlotIn(after, v))
      {
      }
    }
  }

  lemma OwnSlot(m: map<Id, nat>, f: Function, v: Id)
    requires DistinctIds(Layout(f)) && v in Slotted(Layout(f))
    ensures IsRank(f, v, SlotIn(Assign(m, 0, Slotted(Layout(f))), v))
  {
    var slotted := Slotted(Layout(f));
    SlottedDistinct(Layout(f));
    var k :| 0 <= k < |slotted| && slotted[k] == v;
    AssignPosition(m, 0, slotted, k);
    AssignPosition(map[], 0, slotted, k);
    ProcessedRanks(f, v);
  }

  /** What a client can tell from the operations alone: the current function, whether a query came
      since it was incorporated, and the functions processed since the last purge. */
  datatype History = History(current: Option<Function>, processed: bool, seen: seq<Function>)

  function Follow(h: History, op: Op): History {
    match op
    case Incorporate(f) => History(Some(f), false, h.seen)
    case Purge => History(None, false, [])
    case Query =>
      if h.current.Some? && !h.processed then History(h.current, true, h.seen + [h.current.value]) else h
  }

  function FollowAll(h: History, ops: seq<Op>): History
    decreases ops
  {
    if ops == [] then h else FollowAll(Follow(h, ops[0]), ops[1..])
  }

  /** Each function numbered into what the earlier ones left. */
  function SeenMap(seen: seq<Function>): map<Id, nat>
    decreases |seen|
  {
    if seen == [] then map[] else Assign(SeenMap(seen[..|seen| - 1]), 0, Slotted(Layout(seen[|seen| - 1])))
  }

  ghost predicate Tracks(h: History, t: Tracker) {
    && t.theFunction == h.current && t.processed == h.processed && t.fMap == SeenMap(h.seen)
    && (h.current.Some? && h.processed ==> h.seen != [] && h.seen[|h.seen| - 1] == h.current.value)
    && (h.current.None? ==> h.seen == [])
  }

  lemma StepTracks(g: Graph, h: History, t: Tracker, op: Op)
    requires Known(g, t) && (op.Incorporate? ==> KnownFunction(g, op.f)) && Tracks(h, t)
    ensures Tracks(Follow(h, op), Step(g, t, op))
  {
    if op.Query? {
      QueryFunction(g, t);
      if h.current.Some? && !h.processed {
        var more := h.seen + [h.current.value];
        assert more[..|more| - 1] == h.seen;
      }
    }
  }

  /** What a query does to the function part of the tracker. */
  lemma QueryFunction(g: Graph, t: Tracker)
    requires Known(g, t)
    ensures var u := Step(g, t, Query);
            && u.theFunction == t.theFunction && u.processed == (t.processed || t.theFunction.Some?)
            && u.fMap == if t.theFunction.Some? && !t.processed
                         then Assign(t.fMap, 0, Slotted(Layout(t.theFunction.value)))
                         else t.fMap
  {
  }

  lemma {:induction false} RunTracks(g: Graph, h: History, t: Tracker, ops: seq<Op>)
    requires Known(g, t) && KnownOps(g, ops) && Tracks(h, t)
    ensures Tracks(FollowAll(h, ops), Run(g, t, ops))
    decreases ops
  {
    if ops != [] {
      KnownParts(g, ops);
      StepTracks(g, h, t, ops[0]);
      RunTracks(g, Follow(h, ops[0]), Step(g, t, ops[0]), ops[1..]);
    }
  }

  ghost predicate SlotFrom(seen: seq<Function>, v: Id) {
    exists g :: g in seen && v in Slotted(Layout(g))
  }

  lemma {:induction false} SeenKeys(seen: seq<Function>)
    ensures forall v :: v in SeenMap(seen) <==> SlotFrom(seen, v)
    decreases |seen|
  {
    if seen != [] {
      var front, last := seen[..|seen| - 1], seen[|seen| - 1];
      SeenKeys(front);
      AssignKeys(SeenMap(front), 0, Slotted(Layout(last)));
      assert seen == front + [last];
      forall v
        ensures SlotFrom(seen, v) <==> SlotFrom(front, v) || v in Slotted(Layout(last))
      {
        assert last in seen && forall g :: g in seen <==> g in front || g == last;
      }
    }
  }

  lemma {:induction false} FollowLast(h: History, ops: seq<Op>)
    ensures FollowAll(h, ops + [Query]) == Follow(FollowAll(h, ops), Query)
    decreases ops
  {
    if ops == [] {
      assert ([] + [Query])[1..] == [];
    } else {
      assert (ops + [Query])[1..] == ops[1..] + [Query];
      FollowLast(Follow(h, ops[0]), ops[1..]);
    }
  }

  /** Every value that these functions gave a slot is a slotted value of `f`. */
  ghost predicate NothingElse(seen: seq<Function>, f: Function) {
    forall v :: SlotFrom(seen, v) ==> v in Slotted(Layout(f))
  }

  lemma SeenBefore(seen: seq<Function>, f: Function)
    requires seen != [] && seen[|seen| - 1] == f
    ensures NothingElse(seen, f) <==> OnlySlotsOf(f, SeenMap(seen[..|seen| - 1]))
  {
    var front := seen[..|seen| - 1];
    SeenKeys(front);
    assert seen == front + [f];
    if NothingElse(seen, f) {
      forall v | v in SeenMap(front)
        ensures v in Slotted(Layout(f))
      {
        var g :| g in front && v in Slotted(Layout(g));
        assert g in seen && SlotFrom(seen, v);
      }
    }
    if OnlySlotsOf(f, SeenMap(front)) {
      forall v | SlotFrom(seen, v)
        ensures v in Slotted(Layout(f))
      {
        var g :| g in seen && v in Slotted(Layout(g));
        assert g in front ==> SlotFrom(front, v);
      }
    }
  }

  /** What the operations tell about the answers after a last query. */
  lemma LastQuery(g: Graph, m: Option<Module>, first: Option<Function>, ops: seq<Op>)
    requires Known(g, Fresh(m, first)) && KnownOps(g, ops + [Query])
    ensures var h := FollowAll(History(first, false, []), ops + [Query]);
            && Run(g, Fresh(m, first), ops + [Query]).fMap == SeenMap(h.seen)
            && (h.current.Some? ==> h.seen != [] && h.seen[|h.seen| - 1] == h.current.value)
            && (h.current.None? ==> h.seen == [])
  {
    var start := History(first, false, []);
    RunTracks(g, start, Fresh(m, first), ops + [Query]);
    FollowLast(start, ops);
  }

  /**
   Incorporating a function clears nothing, so that without purges the answers can be stale. Over
   every run of incorporations, purges and queries on a fresh tracker: a query gives the rank of
   every value in the current function if and only if every value that the functions processed
   since the last purge gave a slot is a slotted value of the current function.
   */
  lemma StaleSlots(g: Graph, m: Option<Module>, first: Option<Function>, ops: seq<Op>)
    requires Known(g, Fresh(m, first)) && KnownOps(g, ops + [Query])
    ensures var fMap := Run(g, Fresh(m, first), ops + [Query]).fMap;
            var h := FollowAll(History(first, false, []), ops + [Query]);
            match h.current
            case Some(f) => DistinctIds(Layout(f)) ==> (AllRanks(f, fMap) <==> NothingElse(h.seen, f))
            case None => forall v :: SlotIn(fMap, v) == -1
  {
    LastQuery(g, m, first, ops);
    var h := FollowAll(History(first, false, []), ops + [Query]);
    if h.current.Some? && DistinctIds(Layout(h.current.value)) {
      SeenBefore(h.seen, h.current.value);
      StaleMap(SeenMap(h.seen[..|h.seen| - 1]), h.current.value);
    }
  }

  // ---------- a run with a stale answer ----------

  const OLD := Function([Global(1, false)], [])
  const NEW := Function([Global(2, false)], [])

  lemma OneArgument(v: Id)
    ensures Slotted(Layout(Function([Global(v, false)], []))) == [v]
  {
    var gs := [Global(v, false)];
    assert gs[1..] == [];
    assert ArgumentLayout(gs) == [(v, true)] + ArgumentLayout([]);
    assert Layout(Function(gs, [])) == [(v, true)];
    SlottedOne((v, true));
  }

  lemma FollowFour(h: History, a: Op, b: Op, c: Op, d: Op)
    ensures FollowAll(h, [a, b, c, d]) == Follow(Follow(Follow(Follow(h, a), b), c), d)
  {
    assert [a, b, c, d] == [a, b, c] + [d] && [a, b, c] == [a, b] + [c] && [a, b] == [a] + [b];
    assert [a, b, c, d][1..] == [b, c, d] && [b, c, d][1..] == [c, d] && [c, d][1..] == [d] && [d][1..] == [];
    var h1 := Follow(h, a);
    var h2 := Follow(h1, b);
    var h3 := Follow(h2, c);
    assert FollowAll(h3, [d]) == Follow(h3, d);
    assert FollowAll(h2, [c, d]) == FollowAll(h3, [d]);
    assert FollowAll(h1, [b, c, d]) == FollowAll(h2, [c, d]);
  }

  lemma StaleMapOf()
    ensures SeenMap([OLD, NEW]) == map[1 := 0, 2 := 0]
  {
    assert [OLD, NEW][..1] == [OLD] && [OLD][..0] == [];
    OneArgument(1);
    OneArgument(2);
    AssignOne(map[], 0, 1);
    AssignOne(map[1 := 0], 0, 2);
    assert SeenMap([OLD]) == map[1 := 0];
  }

  /** After the second incorporation the argument of the first function is still answered. */
  lemma StaleAnswer(g: Graph)
    requires g.Valid() && g.LocalsAcyclic()
    ensures KnownOps(g, [Incorporate(OLD), Query, Incorporate(NEW), Query])
    ensures var fMap := Run(g, Fresh(None, None), [Incorporate(OLD), Query, Incorporate(NEW), Query]).fMap;
            SlotIn(fMap, 1) == 0 && !IsRank(NEW, 1, SlotIn(fMap, 1))
  {
    var start := History(None, false, []);
    FollowFour(start, Incorporate(OLD), Query, Incorporate(NEW), Query);
    RunTracks(g, start, Fresh(None, None), [Incorporate(OLD), Query, Incorporate(NEW), Query]);
    assert [] + [OLD] == [OLD] && [OLD] + [NEW] == [OLD, NEW];
    StaleMapOf();
    OneArgument(2);
    NotSlotted(NEW, 1);
  }

  lemma NotSlotted(f: Function, v: Id)
    requires v !in Slotted(Layout(f))
    ensures forall i :: 0 <= i < |Layout(f)| ==> Layout(f)[i] != (v, true)
  {
    forall i | 0 <= i < |Layout(f)|
      ensures Layout(f)[i] != (v, true)
    {
      if Layout(f)[i].1 {
        SlottedRank(Layout(f), i);
      }
    }
  }
}
