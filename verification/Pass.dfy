/**
 What the pass inserts (full-trace/full_trace.cpp): each line of the annotation becomes one call
 of the logger, preceded for a vector by a store into the buffer shared by its type.
 */
module Pass {
  import opened Sequences
  import opened Ir
  import opened Annotations
  import Logger

  datatype Code =
    | Log(line: Line)
    | StoreBuffer(key: BufferKey, operand: Operand)
    | LogBuffer(line: Line, key: BufferKey)
    | Allocate(ty: Type)
    | CallUpdateStatus(func: string, opcode: int, tracked: bool)
    | CallLogEntry(func: string, nparams: int)

  datatype Node = Original(inst: Inst) | Inserted(code: Code)

  predicate ShowsVector(l: Line) {
    l.OperandLine? && l.value.Of? && TypeOf(l.value.operand).VecT?
  }

  function LineCodes(l: Line): seq<Code> {
    if ShowsVector(l) then
      var key := KeyOf(TypeOf(l.value.operand));
      [StoreBuffer(key, l.value.operand), LogBuffer(l, key)]
    else [Log(l)]
  }

  function Codes(ls: seq<Line>): seq<Code>
    decreases ls
  {
    if ls == [] then [] else LineCodes(ls[0]) + Codes(ls[1..])
  }

  lemma {:induction false} CodesAppend(a: seq<Line>, b: seq<Line>)
    ensures Codes(a + b) == Codes(a) + Codes(b)
    decreases a
  {
    if a == [] {
      assert a + b == b;
    } else {
      assert (a + b)[1..] == a[1..] + b;
      CodesAppend(a[1..], b);
    }
  }

  function Nodes(cs: seq<Code>): seq<Node> {
    seq(|cs|, k requires 0 <= k < |cs| => Inserted(cs[k]))
  }

  lemma NodesAppend(a: seq<Code>, b: seq<Code>)
    ensures Nodes(a + b) == Nodes(a) + Nodes(b)
  {
  }

  /** The status update in front of an instrumented return. */
  function BeforeReturn(f: Func, a: Annotated): seq<Code> {
    if a.id.Some? && a.inst.kind.Ret? then [CallUpdateStatus(f.name, Logger.RET_OP, f.tracked)] else []
  }

  function InstNodes(f: Func, a: Annotated): seq<Node> {
    Nodes(Codes(a.before) + BeforeReturn(f, a)) + [Original(a.inst)] + Nodes(Codes(a.after))
  }

  function BlockNodes(f: Func, anns: seq<Annotated>): seq<Node>
    decreases anns
  {
    if anns == [] then [] else InstNodes(f, anns[0]) + BlockNodes(f, anns[1..])
  }

  lemma {:induction false} BlockNodesAppend(f: Func, a: seq<Annotated>, b: seq<Annotated>)
    ensures BlockNodes(f, a + b) == BlockNodes(f, a) + BlockNodes(f, b)
    decreases a
  {
    if a == [] {
      assert a + b == b;
    } else {
      assert (a + b)[1..] == a[1..] + b;
      BlockNodesAppend(f, a[1..], b);
      Associate(InstNodes(f, a[0]), BlockNodes(f, a[1..]), BlockNodes(f, b));
    }
  }

  /** What opens a session at the entry of a tracked function. */
  function EntryUpdates(f: Func): seq<Code> {
    if f.supported && f.name != "main" && f.tracked
    then [CallUpdateStatus(f.name, 0, true), CallLogEntry(f.name, |f.params|)]
    else []
  }

  function EntryCodes(f: Func): seq<Code> {
    EntryUpdates(f) + Codes(EntryLines(f))
  }

  // ---------- shared buffers ----------

  ghost predicate HasKey(buffers: seq<Type>, key: BufferKey) {
    exists t <- buffers :: t.VecT? && KeyOf(t) == key
  }

  /** A buffer for the type, unless its key has one. */
  ghost function AddBuffer(buffers: seq<Type>, t: Type): seq<Type>
    requires t.VecT?
  {
    if HasKey(buffers, KeyOf(t)) then buffers else buffers + [t]
  }

  ghost function AddBuffers(buffers: seq<Type>, ls: seq<Line>): seq<Type>
    decreases ls
  {
    if ls == [] then buffers
    else AddBuffers(if ShowsVector(ls[0]) then AddBuffer(buffers, TypeOf(ls[0].value.operand)) else buffers, ls[1..])
  }

  lemma {:induction false} AddBuffersAppend(buffers: seq<Type>, a: seq<Line>, b: seq<Line>)
    ensures AddBuffers(buffers, a + b) == AddBuffers(AddBuffers(buffers, a), b)
    decreases a
  {
    if a == [] {
      assert a + b == b;
    } else {
      assert (a + b)[1..] == a[1..] + b;
      var next := if ShowsVector(a[0]) then AddBuffer(buffers, TypeOf(a[0].value.operand)) else buffers;
      AddBuffersAppend(next, a[1..], b);
    }
  }

  /** All lines of a function in the order in which the pass comes to them. */
  function BlockLines(anns: seq<Annotated>): seq<Line>
    decreases anns
  {
    if anns == [] then [] else anns[0].before + anns[0].after + BlockLines(anns[1..])
  }

  function BlocksLines(blocks: seq<seq<Annotated>>): seq<Line>
    decreases blocks
  {
    if blocks == [] then [] else BlockLines(blocks[0]) + BlocksLines(blocks[1..])
  }

  function AllLines(f: Func): seq<Line> {
    BlocksLines(AnnotateFunction(f)) + EntryLines(f)
  }

  lemma {:induction false} InBlocksLines(blocks: seq<seq<Annotated>>, k: nat)
    requires k < |blocks|
    ensures forall l <- BlockLines(blocks[k]) :: l in BlocksLines(blocks)
    decreases blocks
  {
    if k > 0 {
      InBlocksLines(blocks[1..], k - 1);
    }
  }

  /** The buffers of a function, in the order in which they are created. */
  ghost function BuffersOf(f: Func): seq<Type> {
    AddBuffers([], AllLines(f))
  }

  /** Each new buffer goes in front of the earlier ones. */
  function Allocations(buffers: seq<Type>): (r: seq<Node>)
    ensures |r| == |buffers|
    ensures forall k :: 0 <= k < |r| ==> r[k] == Inserted(Allocate(buffers[|buffers| - 1 - k]))
    decreases buffers
  {
    if buffers == [] then [] else [Inserted(Allocate(buffers[|buffers| - 1]))] + Allocations(buffers[..|buffers| - 1])
  }

  /** The instrumented function: buffers, then what the entry logs, then the instrumented blocks. */
  ghost function Instrument(f: Func): (r: seq<seq<Node>>)
    ensures |r| == |f.blocks|
  {
    var anns := AnnotateFunction(f);
    seq(|f.blocks|, k requires 0 <= k < |f.blocks| =>
      var body := BlockNodes(f, anns[k]);
      if k == 0 then Allocations(BuffersOf(f)) + (Nodes(EntryCodes(f)) + body) else body)
  }

  // ---------- erasure ----------

  function Erase(nodes: seq<Node>): seq<Inst>
    decreases nodes
  {
    if nodes == [] then [] else (if nodes[0].Original? then [nodes[0].inst] else []) + Erase(nodes[1..])
  }

  lemma {:induction false} EraseAppend(a: seq<Node>, b: seq<Node>)
    ensures Erase(a + b) == Erase(a) + Erase(b)
    decreases a
  {
    if a == [] {
      assert a + b == b;
    } else {
      assert (a + b)[1..] == a[1..] + b;
      EraseAppend(a[1..], b);
      Associate(if a[0].Original? then [a[0].inst] else [], Erase(a[1..]), Erase(b));
    }
  }

  lemma {:induction false} EraseInserted(nodes: seq<Node>)
    requires forall n <- nodes :: n.Inserted?
    ensures Erase(nodes) == []
    decreases nodes
  {
    if nodes != [] {
      assert nodes[0] in nodes && forall n <- nodes[1..] :: n in nodes;
      EraseInserted(nodes[1..]);
    }
  }

  lemma EraseInst(f: Func, a: Annotated)
    ensures Erase(InstNodes(f, a)) == [a.inst]
  {
    var before, own, after := Nodes(Codes(a.before) + BeforeReturn(f, a)), [Original(a.inst)], Nodes(Codes(a.after));
    EraseInserted(before);
    EraseInserted(after);
    EraseAppend(before + own, after);
    EraseAppend(before, own);
    assert own[1..] == [];
    assert Erase(own) == [a.inst];
  }

  lemma {:induction false} EraseBlock(f: Func, anns: seq<Annotated>)
    ensures Erase(BlockNodes(f, anns)) == InstsOf(anns)
    decreases anns
  {
    if anns != [] {
      EraseInst(f, anns[0]);
      EraseBlock(f, anns[1..]);
      EraseAppend(InstNodes(f, anns[0]), BlockNodes(f, anns[1..]));
      InstsOfFirst(anns);
    }
  }

  lemma InstsOfFirst(anns: seq<Annotated>)
    requires anns != []
    ensures InstsOf(anns) == [anns[0].inst] + InstsOf(anns[1..])
  {
  }

  lemma EraseFront(a: seq<Node>, b: seq<Node>, c: seq<Node>)
    requires (forall n <- a :: n.Inserted?) && (forall n <- b :: n.Inserted?)
    ensures Erase(a + (b + c)) == Erase(c)
  {
    EraseInserted(a);
    EraseInserted(b);
    EraseAppend(a, b + c);
    EraseAppend(b, c);
    assert [] + ([] + Erase(c)) == Erase(c);
  }

  /** Deleting what the pass inserted gives back every block, its instructions in their order. */
  lemma Erasure(f: Func, k: nat)
    requires k < |f.blocks|
    ensures Erase(Instrument(f)[k]) == f.blocks[k].insts
  {
    var anns := AnnotateFunction(f);
    AnnotateFunctionInsts(f, k);
    EraseBlock(f, anns[k]);
    if k == 0 {
      EraseFront(Allocations(BuffersOf(f)), Nodes(EntryCodes(f)), BlockNodes(f, anns[0]));
    }
  }

  // ---------- at most one buffer per key, all in front ----------

  ghost predicate OnePerKey(buffers: seq<Type>) {
    && (forall t <- buffers :: t.VecT?)
    && forall i, j :: 0 <= i < j < |buffers| ==> KeyOf(buffers[i]) != KeyOf(buffers[j])
  }

  /** Each vector among the lines has a buffer. */
  ghost predicate Provides(buffers: seq<Type>, ls: seq<Line>) {
    forall l <- ls :: ShowsVector(l) ==> HasKey(buffers, KeyOf(TypeOf(l.value.operand)))
  }

  lemma {:induction false} AddBuffersProvides(buffers: seq<Type>, ls: seq<Line>)
    requires OnePerKey(buffers)
    ensures buffers <= AddBuffers(buffers, ls)
    ensures OnePerKey(AddBuffers(buffers, ls)) && Provides(AddBuffers(buffers, ls), ls)
    ensures forall t <- AddBuffers(buffers, ls) ::
              t in buffers || exists l <- ls :: ShowsVector(l) && TypeOf(l.value.operand) == t
    decreases ls
  {
    if ls != [] {
      var next := if ShowsVector(ls[0]) then AddBuffer(buffers, TypeOf(ls[0].value.operand)) else buffers;
      AddBuffersProvides(next, ls[1..]);
      assert ls[0] in ls && forall l <- ls[1..] :: l in ls;
      if ShowsVector(ls[0]) {
        AddBufferHas(buffers, TypeOf(ls[0].value.operand));
        HasKeyGrows(next, AddBuffers(buffers, ls), KeyOf(TypeOf(ls[0].value.operand)));
      }
      forall l | l in ls && ShowsVector(l)
        ensures HasKey(AddBuffers(buffers, ls), KeyOf(TypeOf(l.value.operand)))
      {
        assert l == ls[0] || l in ls[1..];
      }
    }
  }

  lemma AddBufferHas(buffers: seq<Type>, t: Type)
    requires t.VecT?
    ensures HasKey(AddBuffer(buffers, t), KeyOf(t))
  {
    if !HasKey(buffers, KeyOf(t)) {
      assert t in buffers + [t];
    }
  }

  lemma HasKeyGrows(a: seq<Type>, b: seq<Type>, key: BufferKey)
    requires a <= b && HasKey(a, key)
    ensures HasKey(b, key)
  {
    var t :| t in a && t.VecT? && KeyOf(t) == key;
    assert t in b;
  }

  /**
   Shared buffers: a function has at most one buffer per type key, every vector that is logged
   anywhere in it has one, and the buffers are exactly the first nodes of its entry block - so
   each dominates its uses.
   */
  lemma BuffersInFront(f: Func)
    requires f.blocks != []
    ensures OnePerKey(BuffersOf(f)) && Provides(BuffersOf(f), AllLines(f))
    ensures Instrument(f)[0][..|BuffersOf(f)|] == Allocations(BuffersOf(f))
    ensures forall k: nat :: k < |f.blocks| ==> NoAllocations(AfterBuffers(f, k))
  {
    AddBuffersProvides([], AllLines(f));
    forall k: nat | k < |f.blocks|
      ensures NoAllocations(AfterBuffers(f, k))
    {
      NoOtherAllocations(f, k);
    }
  }

  /** The nodes of a block without the buffers in front of the entry block. */
  ghost function AfterBuffers(f: Func, k: nat): seq<Node>
    requires k < |f.blocks|
  {
    if k == 0 then Instrument(f)[0][|BuffersOf(f)|..] else Instrument(f)[k]
  }

  lemma NoOtherAllocations(f: Func, k: nat)
    requires k < |f.blocks|
    ensures NoAllocations(AfterBuffers(f, k))
  {
    var body := BlockNodes(f, AnnotateFunction(f)[k]);
    BlockWithoutAllocations(f, AnnotateFunction(f)[k]);
    if k == 0 {
      EntryWithoutAllocations(f);
      AfterPrefix(Allocations(BuffersOf(f)), Nodes(EntryCodes(f)) + body);
    }
  }

  lemma EntryWithoutAllocations(f: Func)
    ensures NoAllocations(Nodes(EntryCodes(f)))
  {
    CodesWithoutAllocations(EntryLines(f));
    var update := EntryUpdates(f);
    assert forall c <- update :: !c.Allocate?;
  }

  ghost predicate NoAllocations(nodes: seq<Node>) {
    forall n <- nodes :: n.Inserted? ==> !n.code.Allocate?
  }

  lemma {:induction false} CodesWithoutAllocations(ls: seq<Line>)
    ensures forall c <- Codes(ls) :: !c.Allocate?
    decreases ls
  {
    if ls != [] {
      CodesWithoutAllocations(ls[1..]);
    }
  }

  lemma {:induction false} BlockWithoutAllocations(f: Func, anns: seq<Annotated>)
    ensures NoAllocations(BlockNodes(f, anns))
    decreases anns
  {
    if anns != [] {
      InstWithoutAllocations(f, anns[0]);
      BlockWithoutAllocations(f, anns[1..]);
    }
  }

  lemma InstWithoutAllocations(f: Func, a: Annotated)
    ensures NoAllocations(InstNodes(f, a))
  {
    CodesWithoutAllocations(a.before);
    CodesWithoutAllocations(a.after);
    assert forall c <- BeforeReturn(f, a) :: !c.Allocate?;
  }
}
