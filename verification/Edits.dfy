/**
 The edits that the pass makes to the blocks of a function, as functions on their shape: what
 each block holds apart from the buffers, and the buffers in order of creation.
 */
module Edits {
  import opened Sequences
  import opened Ir
  import opened Annotations
  import opened Pass
  import opened Preservation

  datatype Shape = Shape(bodies: seq<seq<Node>>, buffers: seq<Type>)

  /** The blocks: the entry block starts with the buffers. */
  ghost function Whole(s: Shape): seq<seq<Node>> {
    if s.bodies == [] then [] else s.bodies[0 := Allocations(s.buffers) + s.bodies[0]]
  }

  /** An instruction iterator is the number of nodes from it to the end of its block, which
      insertions in front of it and new buffers leave alone. */
  ghost predicate At(s: Shape, b: nat, rem: nat) {
    b < |s.bodies| && rem <= |s.bodies[b]|
  }

  function Splice(nodes: seq<Node>, rem: nat, codes: seq<Code>): seq<Node>
    requires rem <= |nodes|
  {
    nodes[..|nodes| - rem] + (Nodes(codes) + nodes[|nodes| - rem..])
  }

  /** Insert codes in front of the iterator. */
  ghost function Put(s: Shape, b: nat, rem: nat, codes: seq<Code>): (r: Shape)
    requires At(s, b, rem)
    ensures At(r, b, rem) && |r.bodies| == |s.bodies|
  {
    s.(bodies := s.bodies[b := Splice(s.bodies[b], rem, codes)])
  }

  /** Insert what logs the lines, making the buffers that are missing. */
  ghost function PutLines(s: Shape, b: nat, rem: nat, ls: seq<Line>): (r: Shape)
    requires At(s, b, rem)
    ensures At(r, b, rem) && |r.bodies| == |s.bodies|
  {
    Put(s, b, rem, Codes(ls)).(buffers := AddBuffers(s.buffers, ls))
  }

  lemma SpliceTwice(nodes: seq<Node>, rem: nat, x: seq<Code>, y: seq<Code>)
    requires rem <= |nodes|
    ensures Splice(Splice(nodes, rem, x), rem, y) == Splice(nodes, rem, x + y)
  {
    var front, back := nodes[..|nodes| - rem], nodes[|nodes| - rem..];
    var once := Splice(nodes, rem, x);
    assert once[..|once| - rem] == front + Nodes(x) && once[|once| - rem..] == back;
    NodesAppend(x, y);
    Associate(front, Nodes(x), Nodes(y) + back);
    Associate(Nodes(x), Nodes(y), back);
  }

  lemma PutTwice(s: Shape, b: nat, rem: nat, x: seq<Code>, y: seq<Code>)
    requires At(s, b, rem)
    ensures Put(Put(s, b, rem, x), b, rem, y) == Put(s, b, rem, x + y)
  {
    SpliceTwice(s.bodies[b], rem, x, y);
  }

  lemma PutLinesTwice(s: Shape, b: nat, rem: nat, x: seq<Line>, y: seq<Line>)
    requires At(s, b, rem)
    ensures PutLines(PutLines(s, b, rem, x), b, rem, y) == PutLines(s, b, rem, x + y)
  {
    CodesAppend(x, y);
    AddBuffersAppend(s.buffers, x, y);
    SpliceTwice(s.bodies[b], rem, Codes(x), Codes(y));
  }

  lemma PutNone(s: Shape, b: nat, rem: nat)
    requires At(s, b, rem)
    ensures Put(s, b, rem, []) == s
  {
    var nodes := s.bodies[b];
    assert Splice(nodes, rem, []) == nodes;
    assert s.bodies[b := nodes] == s.bodies;
  }

  lemma PutLinesNone(s: Shape, b: nat, rem: nat)
    requires At(s, b, rem)
    ensures PutLines(s, b, rem, []) == s
  {
    PutNone(s, b, rem);
  }

  lemma CodesOne(l: Line)
    ensures Codes([l]) == LineCodes(l)
  {
    assert [l][1..] == [];
    assert LineCodes(l) + [] == LineCodes(l);
  }

  lemma PutLinesOne(s: Shape, b: nat, rem: nat, l: Line)
    requires At(s, b, rem)
    ensures PutLines(s, b, rem, [l]) ==
            Put(s, b, rem, LineCodes(l)).(
              buffers := if ShowsVector(l) then AddBuffer(s.buffers, TypeOf(l.value.operand)) else s.buffers)
  {
    CodesOne(l);
    AddBuffersOne(s.buffers, l);
  }

  /** A vector line: the missing buffer is made, the vector stored, the buffer logged. */
  lemma PutVectorLine(s: Shape, b: nat, rem: nat, l: Line)
    requires At(s, b, rem) && ShowsVector(l)
    ensures var o := l.value.operand;
            var key := KeyOf(TypeOf(o));
            Put(Put(s, b, rem, [StoreBuffer(key, o)]).(buffers := AddBuffer(s.buffers, TypeOf(o))), b, rem,
                [LogBuffer(l, key)])
            == PutLines(s, b, rem, [l])
  {
    var o := l.value.operand;
    var key := KeyOf(TypeOf(o));
    PutLinesOne(s, b, rem, l);
    assert LineCodes(l) == [StoreBuffer(key, o)] + [LogBuffer(l, key)];
    PutTwice(s, b, rem, [StoreBuffer(key, o)], [LogBuffer(l, key)]);
    PutApart(Put(s, b, rem, [StoreBuffer(key, o)]), b, rem, [LogBuffer(l, key)], AddBuffer(s.buffers, TypeOf(o)));
  }

  lemma PutApart(s: Shape, b: nat, rem: nat, codes: seq<Code>, buffers: seq<Type>)
    requires At(s, b, rem)
    ensures Put(s.(buffers := buffers), b, rem, codes) == Put(s, b, rem, codes).(buffers := buffers)
  {
  }

  lemma AddBuffersOne(buffers: seq<Type>, l: Line)
    ensures AddBuffers(buffers, [l]) == if ShowsVector(l) then AddBuffer(buffers, TypeOf(l.value.operand)) else buffers
  {
    var next := if ShowsVector(l) then AddBuffer(buffers, TypeOf(l.value.operand)) else buffers;
    assert [l][1..] == [];
    assert AddBuffers(next, [l][1..]) == next;
  }

  // ---------- the entry block ----------

  /** No phi stands at the entry of a function, since no branch goes there. */
  ghost predicate NoEntryPhi(s: Shape) {
    s.bodies != [] && (s.bodies[0] != [] && s.bodies[0][0].Original? ==> !s.bodies[0][0].inst.kind.Phi?)
  }

  lemma PutKeepsEntry(s: Shape, b: nat, rem: nat, codes: seq<Code>)
    requires At(s, b, rem) && NoEntryPhi(s)
    ensures NoEntryPhi(Put(s, b, rem, codes))
  {
  }

  /** getFirstInsertionPt, as an index: past the phis. */
  function FirstInsertionPoint(nodes: seq<Node>): (n: nat)
    ensures n <= |nodes|
    decreases nodes
  {
    if nodes == [] || nodes[0].Inserted? || !nodes[0].inst.kind.Phi? then 0 else 1 + FirstInsertionPoint(nodes[1..])
  }

  lemma {:induction false} UntouchedInsertionPoint(insts: seq<Inst>)
    ensures FirstInsertionPoint(Untouched(insts)) == PhiCount(insts)
    decreases insts
  {
    if insts != [] {
      assert Untouched(insts)[1..] == Untouched(insts[1..]);
      UntouchedInsertionPoint(insts[1..]);
    }
  }

  lemma EntryInsertionPoint(s: Shape)
    requires NoEntryPhi(s)
    ensures FirstInsertionPoint(Whole(s)[0]) == 0
  {
  }

  lemma WholePut(s: Shape, b: nat, rem: nat, codes: seq<Code>)
    requires At(s, b, rem)
    ensures rem <= |Whole(s)[b]|
    ensures Whole(Put(s, b, rem, codes)) == Whole(s)[b := Splice(Whole(s)[b], rem, codes)]
  {
    if b == 0 {
      SpliceAfter(Allocations(s.buffers), s.bodies[0], rem, codes);
    }
  }

  lemma SpliceAfter(a: seq<Node>, nodes: seq<Node>, rem: nat, codes: seq<Code>)
    requires rem <= |nodes|
    ensures Splice(a + nodes, rem, codes) == a + Splice(nodes, rem, codes)
  {
    var front, back := nodes[..|nodes| - rem], nodes[|nodes| - rem..];
    assert (a + nodes)[..|a + nodes| - rem] == a + front;
    assert (a + nodes)[|a + nodes| - rem..] == back;
    Associate(a, front, Nodes(codes) + back);
  }

  lemma WholeBuffer(s: Shape, t: Type)
    requires s.bodies != []
    ensures Whole(s.(buffers := s.buffers + [t])) == Whole(s)[0 := [Inserted(Allocate(t))] + Whole(s)[0]]
  {
    var more := s.buffers + [t];
    assert more[..|more| - 1] == s.buffers;
    Associate([Inserted(Allocate(t))], Allocations(s.buffers), s.bodies[0]);
  }
}
