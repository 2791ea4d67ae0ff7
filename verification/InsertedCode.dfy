/**
 What the inserted code does when it runs: it logs exactly the lines it stands for and leaves
 registers, world and control alone, provided that every vector line has a buffer of its type.
 */
module InsertedCode {
  import opened Sequences
  import opened Logger
  import opened Runs
  import opened Ir
  import opened Annotations
  import opened Pass
  import opened Semantics

  /** Where a run is: everything that inserted code cannot change. */
  datatype Place<!W> = Place(m: Machine<W>, p: Program, fuel: nat, c: Body, at: nat)

  function Exec<W>(x: Place<W>, fr: Frame, bufs: Buffers, nodes: seq<Node>, w: W): Outcome<W> {
    ExecNodes(x.m, x.p, x.fuel, x.c, x.at, fr, bufs, nodes, w)
  }

  ghost predicate Holds(bufs: Buffers, t: Type) {
    t.VecT? && KeyOf(t) in bufs && bufs[KeyOf(t)].0 == t
  }

  ghost predicate LineReady(bufs: Buffers, l: Line) {
    ShowsVector(l) ==> Holds(bufs, TypeOf(l.value.operand))
  }

  /** Every vector of the lines has a buffer of exactly its type. */
  ghost predicate Ready(bufs: Buffers, ls: seq<Line>) {
    forall l <- ls :: LineReady(bufs, l)
  }

  /** The same buffers, possibly with other contents. */
  ghost predicate SameShape(a: Buffers, b: Buffers) {
    a.Keys == b.Keys && forall k <- a :: b[k].0 == a[k].0
  }

  lemma ReadyShape(a: Buffers, b: Buffers, ls: seq<Line>)
    requires Ready(a, ls) && SameShape(a, b)
    ensures Ready(b, ls)
  {
    forall l | l in ls
      ensures LineReady(b, l)
    {
      assert LineReady(a, l);
    }
  }

  lemma ReadySome(bufs: Buffers, all: seq<Line>, some: seq<Line>)
    requires Ready(bufs, all) && forall l <- some :: l in all
    ensures Ready(bufs, some)
  {
  }

  // ---------- one line ----------

  lemma ExecInserted<W>(x: Place<W>, fr: Frame, bufs: Buffers, code: Code, rest: seq<Node>, w: W)
    ensures Exec(x, fr, bufs, [Inserted(code)] + rest, w)
            == ExecCode(x.m, x.p, x.fuel, x.c, x.at, fr, bufs, code, rest, w)
  {
    var nodes := [Inserted(code)] + rest;
    assert nodes != [] && nodes[0] == Inserted(code) && nodes[1..] == rest;
  }

  lemma ExecLog<W>(x: Place<W>, fr: Frame, bufs: Buffers, l: Line, rest: seq<Node>, w: W)
    ensures Exec(x, fr, bufs, [Inserted(Log(l))] + rest, w)
            == Prefixed([LineCall(x.m, fr, l)], Exec(x, fr, bufs, rest, w))
  {
    ExecInserted(x, fr, bufs, Log(l), rest, w);
  }

  lemma ExecStore<W>(x: Place<W>, fr: Frame, bufs: Buffers, o: Operand, rest: seq<Node>, w: W)
    requires Holds(bufs, TypeOf(o))
    ensures var key := KeyOf(TypeOf(o));
            Exec(x, fr, bufs, [Inserted(StoreBuffer(key, o))] + rest, w)
            == Exec(x, fr, bufs[key := (TypeOf(o), Eval(x.m, fr, o))], rest, w)
  {
    ExecInserted(x, fr, bufs, StoreBuffer(KeyOf(TypeOf(o)), o), rest, w);
  }

  lemma ExecLogBuffer<W>(x: Place<W>, fr: Frame, bufs: Buffers, l: Line, key: BufferKey, rest: seq<Node>, w: W)
    requires key in bufs && l.OperandLine?
    ensures Exec(x, fr, bufs, [Inserted(LogBuffer(l, key))] + rest, w)
            == Prefixed([CallWith(l, ValueToken(bufs[key].0, bufs[key].1))], Exec(x, fr, bufs, rest, w))
  {
    ExecInserted(x, fr, bufs, LogBuffer(l, key), rest, w);
  }

  /** The store in front of a vector call makes the buffer hold exactly the operand being logged. */
  lemma ExecLine<W>(x: Place<W>, fr: Frame, bufs: Buffers, l: Line, rest: seq<Node>, w: W)
    returns (bufs': Buffers)
    requires LineReady(bufs, l)
    ensures SameShape(bufs, bufs')
    ensures ShowsVector(l) ==>
              Holds(bufs', TypeOf(l.value.operand))
              && bufs'[KeyOf(TypeOf(l.value.operand))].1 == Eval(x.m, fr, l.value.operand)
    ensures Exec(x, fr, bufs, Nodes(LineCodes(l)) + rest, w)
            == Prefixed([LineCall(x.m, fr, l)], Exec(x, fr, bufs', rest, w))
  {
    if ShowsVector(l) {
      var o := l.value.operand;
      var key := KeyOf(TypeOf(o));
      bufs' := bufs[key := (TypeOf(o), Eval(x.m, fr, o))];
      var store, log := [Inserted(StoreBuffer(key, o))], [Inserted(LogBuffer(l, key))];
      assert Nodes(LineCodes(l)) + rest == store + (log + rest);
      ExecStore(x, fr, bufs, o, log + rest, w);
      ExecLogBuffer(x, fr, bufs', l, key, rest, w);
    } else {
      bufs' := bufs;
      assert Nodes(LineCodes(l)) == [Inserted(Log(l))];
      ExecLog(x, fr, bufs, l, rest, w);
    }
  }

  // ---------- many lines ----------

  lemma PrefixedTwice<W>(a: seq<Call>, b: seq<Call>, r: Outcome<W>)
    ensures Prefixed(a, Prefixed(b, r)) == Prefixed(a + b, r)
  {
    assert AllMade<W>(a + b) == AllMade(a) + AllMade(b);
    Associate(AllMade(a), AllMade(b), r.events);
  }

  lemma PrefixedNone<W>(r: Outcome<W>)
    ensures Prefixed([], r) == r
  {
    assert AllMade<W>([]) + r.events == r.events;
  }

  lemma NodesOfLines(ls: seq<Line>, rest: seq<Node>)
    requires ls != []
    ensures Nodes(Codes(ls)) + rest == Nodes(LineCodes(ls[0])) + (Nodes(Codes(ls[1..])) + rest)
  {
    NodesAppend(LineCodes(ls[0]), Codes(ls[1..]));
    Associate(Nodes(LineCodes(ls[0])), Nodes(Codes(ls[1..])), rest);
  }

  /** Any number of lines is logged in order; the buffers keep their shape. */
  lemma {:induction false} ExecLines<W>(x: Place<W>, fr: Frame, bufs: Buffers, ls: seq<Line>, rest: seq<Node>, w: W)
    returns (bufs': Buffers)
    requires Ready(bufs, ls)
    ensures SameShape(bufs, bufs')
    ensures Exec(x, fr, bufs, Nodes(Codes(ls)) + rest, w)
            == Prefixed(LineCalls(x.m, fr, ls), Exec(x, fr, bufs', rest, w))
    decreases ls
  {
    if ls == [] {
      bufs' := bufs;
      assert Nodes(Codes(ls)) + rest == rest;
      PrefixedNone(Exec(x, fr, bufs, rest, w));
    } else {
      var more := Nodes(Codes(ls[1..])) + rest;
      NodesOfLines(ls, rest);
      assert LineReady(bufs, ls[0]);
      var one := ExecLine(x, fr, bufs, ls[0], more, w);
      ReadySome(bufs, ls, ls[1..]);
      ReadyShape(bufs, one, ls[1..]);
      bufs' := ExecLines(x, fr, one, ls[1..], rest, w);
      PrefixedTwice([LineCall(x.m, fr, ls[0])], LineCalls(x.m, fr, ls[1..]), Exec(x, fr, bufs', rest, w));
    }
  }

  /** A line whose vector has no buffer of its type gets stuck. */
  lemma ExecUnreadyLine<W>(x: Place<W>, fr: Frame, bufs: Buffers, l: Line, rest: seq<Node>, w: W)
    requires !LineReady(bufs, l)
    ensures Exec(x, fr, bufs, Nodes(LineCodes(l)) + rest, w).status == Stuck
  {
    var o := l.value.operand;
    var key := KeyOf(TypeOf(o));
    var more := [Inserted(LogBuffer(l, key))] + rest;
    assert Nodes(LineCodes(l)) + rest == [Inserted(StoreBuffer(key, o))] + more;
    ExecInserted(x, fr, bufs, StoreBuffer(key, o), more, w);
  }

  lemma UnreadyRest(a: Buffers, b: Buffers, ls: seq<Line>)
    requires !Ready(a, ls) && LineReady(a, ls[0]) && SameShape(a, b)
    ensures !Ready(b, ls[1..])
  {
    var l :| l in ls && !LineReady(a, l);
    assert l in ls[1..] && !LineReady(b, l);
  }

  /** If some vector of the lines has no buffer of its type, the run gets stuck among them. */
  lemma {:induction false} ExecUnready<W>(x: Place<W>, fr: Frame, bufs: Buffers, ls: seq<Line>, rest: seq<Node>, w: W)
    requires !Ready(bufs, ls)
    ensures Exec(x, fr, bufs, Nodes(Codes(ls)) + rest, w).status == Stuck
    decreases ls
  {
    var more := Nodes(Codes(ls[1..])) + rest;
    NodesOfLines(ls, rest);
    if LineReady(bufs, ls[0]) {
      var one := ExecLine(x, fr, bufs, ls[0], more, w);
      UnreadyRest(bufs, one, ls);
      ExecUnready(x, fr, one, ls[1..], rest, w);
    } else {
      ExecUnreadyLine(x, fr, bufs, ls[0], more, w);
    }
  }

  // ---------- status updates ----------

  lemma ExecUpdate<W>(x: Place<W>, fr: Frame, bufs: Buffers, f: string, op: int, tracked: bool, rest: seq<Node>, w: W)
    ensures Exec(x, fr, bufs, Nodes([CallUpdateStatus(f, op, tracked)]) + rest, w)
            == Prefixed([Update(f, op, tracked, true)], Exec(x, fr, bufs, rest, w))
  {
    var code := CallUpdateStatus(f, op, tracked);
    assert Nodes([code]) == [Inserted(code)];
    ExecInserted(x, fr, bufs, code, rest, w);
  }

  lemma ExecEntry<W>(x: Place<W>, fr: Frame, bufs: Buffers, f: string, n: nat, rest: seq<Node>, w: W)
    ensures Exec(x, fr, bufs, Nodes([CallLogEntry(f, n)]) + rest, w)
            == Prefixed([LogEntry(f, n)], Exec(x, fr, bufs, rest, w))
  {
    var code := CallLogEntry(f, n);
    assert Nodes([code]) == [Inserted(code)];
    ExecInserted(x, fr, bufs, code, rest, w);
  }

  /** The calls that open a session, as the prologue of an activation. */
  lemma ExecEntryUpdates<W>(x: Place<W>, fr: Frame, bufs: Buffers, f: Func, items: seq<Item>, rest: seq<Node>, w: W)
    requires f.supported && f.tracked ==> f.name != "main" && !f.skipBody
    ensures Exec(x, fr, bufs, Nodes(EntryUpdates(f)) + rest, w)
            == Prefixed(Activation(f.name, KindOf(f), |f.params|, items).Prologue(), Exec(x, fr, bufs, rest, w))
  {
    if f.supported && f.tracked {
      var first, second := [CallUpdateStatus(f.name, 0, true)], [CallLogEntry(f.name, |f.params|)];
      assert Nodes(EntryUpdates(f)) + rest == Nodes(first) + (Nodes(second) + rest);
      ExecUpdate(x, fr, bufs, f.name, 0, true, Nodes(second) + rest, w);
      ExecEntry(x, fr, bufs, f.name, |f.params|, rest, w);
      PrefixedTwice([Update(f.name, 0, true, true)], [LogEntry(f.name, |f.params|)], Exec(x, fr, bufs, rest, w));
    } else {
      assert Nodes(EntryUpdates(f)) + rest == rest;
      PrefixedNone(Exec(x, fr, bufs, rest, w));
    }
  }

  // ---------- the buffers of a function ----------

  /** After the allocations each buffer of the function is there with its type. */
  lemma {:induction false} ExecAllocations<W>(x: Place<W>, fr: Frame, bufs: Buffers, buffers: seq<Type>,
                                              rest: seq<Node>, w: W)
    returns (bufs': Buffers)
    requires OnePerKey(buffers)
    ensures forall t <- buffers :: Holds(bufs', t)
    ensures forall t: Type :: Holds(bufs, t) && !HasKey(buffers, KeyOf(t)) ==> Holds(bufs', t)
    ensures Exec(x, fr, bufs, Allocations(buffers) + rest, w) == Exec(x, fr, bufs', rest, w)
    decreases buffers
  {
    if buffers == [] {
      bufs' := bufs;
      assert Allocations(buffers) + rest == rest;
    } else {
      var last, others := buffers[|buffers| - 1], buffers[..|buffers| - 1];
      var node, more := [Inserted(Allocate(last))], Allocations(others) + rest;
      assert last in buffers && last.VecT?;
      var one := bufs[KeyOf(last) := (last, UNDEF)];
      Associate(node, Allocations(others), rest);
      ExecInserted(x, fr, bufs, Allocate(last), more, w);
      assert !HasKey(others, KeyOf(last));
      assert Holds(one, last);
      bufs' := ExecAllocations(x, fr, one, others, rest, w);
      assert Holds(bufs', last);
      forall t | t in buffers
        ensures Holds(bufs', t)
      {
        assert t == last || t in others;
      }
      forall t: Type | Holds(bufs, t) && !HasKey(buffers, KeyOf(t))
        ensures Holds(bufs', t)
      {
        assert KeyOf(t) != KeyOf(last);
        assert Holds(one, t);
        assert !HasKey(others, KeyOf(t));
      }
    }
  }

  /** Two vectors of different types that would share a buffer. */
  ghost predicate Clash(k: Line, l: Line) {
    && ShowsVector(k) && ShowsVector(l)
    && KeyOf(TypeOf(k.value.operand)) == KeyOf(TypeOf(l.value.operand))
    && TypeOf(k.value.operand) != TypeOf(l.value.operand)
  }

  ghost predicate KeysApart(ls: seq<Line>) {
    forall k <- ls, l <- ls :: !Clash(k, l)
  }

  /** The buffers made for some lines serve them all if and only if no two of their vector types
      share a key. */
  lemma BuffersServe(bufs: Buffers, buffers: seq<Type>, ls: seq<Line>)
    requires buffers == AddBuffers([], ls)
    requires forall t <- buffers :: Holds(bufs, t)
    ensures Ready(bufs, ls) <==> KeysApart(ls)
  {
    AddBuffersProvides([], ls);
    if KeysApart(ls) {
      forall l | l in ls && ShowsVector(l)
        ensures LineReady(bufs, l)
      {
        var t := TypeOf(l.value.operand);
        assert HasKey(buffers, KeyOf(t));
        var u :| u in buffers && u.VecT? && KeyOf(u) == KeyOf(t);
        var k :| k in ls && ShowsVector(k) && TypeOf(k.value.operand) == u;
        assert !Clash(k, l);
      }
    }
    if Ready(bufs, ls) {
      forall k, l | k in ls && l in ls
        ensures !Clash(k, l)
      {
        assert LineReady(bufs, k) && LineReady(bufs, l);
      }
    }
  }
}
