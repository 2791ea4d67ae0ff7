/**
 Numbering metadata (full-trace/SlotTracker.h:375-394): a depth-first search over a graph
 that may have cycles. A node is recorded before its operands are visited; function-local
 nodes are never recorded, only passed through.
 */
module Metadata {
  import opened Wrappers

  type Node = nat

  /** `operands` holds None for an operand that is no metadata node. */
  datatype Graph = Graph(operands: map<Node, seq<Option<Node>>>, local: set<Node>) {
    ghost predicate Valid() {
      && local <= operands.Keys
      && forall n <- operands, o <- operands[n] :: o.Some? ==> o.value in operands
    }

    predicate Recorded(n: Node) {
      n !in local
    }

    ghost predicate Edge(a: Node, b: Node) {
      a in operands && b in operands && Some(b) in operands[a]
    }

    ghost predicate Path(p: seq<Node>) {
      && p != [] && (forall n <- p :: n in operands)
      && forall i :: 0 <= i < |p| - 1 ==> Edge(p[i], p[i + 1])
    }

    ghost predicate LocalPath(p: seq<Node>) {
      Path(p) && forall n <- p :: n in local
    }

    /** No cycle consists of function-local nodes only. */
    ghost predicate LocalsAcyclic() {
      forall p :: LocalPath(p) && |p| >= 2 ==> p[0] != p[|p| - 1]
    }
  }

  /** The local nodes passed through since the last recorded one, ending in the caller of `n`. */
  ghost predicate Chain(g: Graph, chain: seq<Node>, n: Node) {
    chain != [] ==> g.LocalPath(chain) && g.Edge(chain[|chain| - 1], n)
  }

  lemma ChainStep(g: Graph, chain: seq<Node>, n: Node)
    requires Chain(g, chain, n) && n in g.operands && n in g.local
    ensures g.LocalPath(chain + [n])
  {
    var p := chain + [n];
    forall i | 0 <= i < |p| - 1
      ensures g.Edge(p[i], p[i + 1])
    {
      if i < |chain| - 1 {
        assert g.Edge(chain[i], chain[i + 1]);
      }
    }
  }

  /** Termination: a local node cannot come back within a chain of local nodes. */
  lemma ChainFresh(g: Graph, chain: seq<Node>, n: Node)
    requires g.LocalsAcyclic() && Chain(g, chain, n) && n in g.operands && n in g.local
    ensures n !in chain
  {
    if n in chain {
      ChainStep(g, chain, n);
      var k :| 0 <= k < |chain| && chain[k] == n;
      var p := (chain + [n])[k..];
      assert p[0] == n && p[|p| - 1] == n;
      forall i | 0 <= i < |p| - 1
        ensures g.Edge(p[i], p[i + 1])
      {
        assert g.Edge((chain + [n])[k + i], (chain + [n])[k + i + 1]);
      }
      assert g.LocalPath(p);
    }
  }

  ghost function Unseen(g: Graph, order: seq<Node>): set<Node> {
    set n | n in g.operands && n !in g.local && n !in order
  }

  ghost function LocalsLeft(g: Graph, chain: seq<Node>): set<Node> {
    set n | n in g.local && n !in chain
  }

  /** The numbering after CreateMetadataSlot(n), given the one before: `order[i]` has slot i. */
  ghost function Visit(g: Graph, order: seq<Node>, n: Node, chain: seq<Node>): (r: seq<Node>)
    requires g.Valid() && g.LocalsAcyclic() && n in g.operands && Chain(g, chain, n)
    ensures order <= r
    decreases Unseen(g, order), LocalsLeft(g, chain), 0
  {
    if g.Recorded(n) then
      if n in order then order
      else
        assert n in Unseen(g, order) && n !in Unseen(g, order + [n]);
        VisitOperands(g, order + [n], n, 0, [])
    else
      ChainStep(g, chain, n);
      ChainFresh(g, chain, n);
      assert n in LocalsLeft(g, chain) && n !in LocalsLeft(g, chain + [n]);
      VisitOperands(g, order, n, 0, chain + [n])
  }

  ghost function VisitOperands(g: Graph, order: seq<Node>, n: Node, i: nat, chain: seq<Node>): (r: seq<Node>)
    requires g.Valid() && g.LocalsAcyclic() && n in g.operands && i <= |g.operands[n]|
    requires if g.Recorded(n) then chain == [] else g.LocalPath(chain) && chain[|chain| - 1] == n
    ensures order <= r
    decreases Unseen(g, order), LocalsLeft(g, chain), 1 + |g.operands[n]| - i
  {
    if i == |g.operands[n]| then order
    else
      var o := g.operands[n][i];
      assert o in g.operands[n];
      if o.None? then VisitOperands(g, order, n, i + 1, chain)
      else
        var visited := Visit(g, order, o.value, chain);
        assert Unseen(g, visited) <= Unseen(g, order);
        VisitOperands(g, visited, n, i + 1, chain)
  }

  ghost predicate Distinct(order: seq<Node>) {
    forall i, j :: 0 <= i < j < |order| ==> order[i] != order[j]
  }

  ghost predicate NumbersRecorded(g: Graph, order: seq<Node>) {
    Distinct(order) && forall n <- order :: n in g.operands && g.Recorded(n)
  }

  lemma {:induction false} VisitDistinct(g: Graph, order: seq<Node>, n: Node, chain: seq<Node>)
    requires g.Valid() && g.LocalsAcyclic() && n in g.operands && Chain(g, chain, n)
    requires NumbersRecorded(g, order)
    ensures NumbersRecorded(g, Visit(g, order, n, chain))
    decreases Unseen(g, order), LocalsLeft(g, chain), 0
  {
    if g.Recorded(n) {
      if n !in order {
        assert n in Unseen(g, order) && n !in Unseen(g, order + [n]);
        VisitOperandsDistinct(g, order + [n], n, 0, []);
      }
    } else {
      ChainStep(g, chain, n);
      ChainFresh(g, chain, n);
      assert n in LocalsLeft(g, chain) && n !in LocalsLeft(g, chain + [n]);
      VisitOperandsDistinct(g, order, n, 0, chain + [n]);
    }
  }

  lemma {:induction false} VisitOperandsDistinct(g: Graph, order: seq<Node>, n: Node, i: nat, chain: seq<Node>)
    requires g.Valid() && g.LocalsAcyclic() && n in g.operands && i <= |g.operands[n]|
    requires if g.Recorded(n) then chain == [] else g.LocalPath(chain) && chain[|chain| - 1] == n
    requires NumbersRecorded(g, order)
    ensures NumbersRecorded(g, VisitOperands(g, order, n, i, chain))
    decreases Unseen(g, order), LocalsLeft(g, chain), 1 + |g.operands[n]| - i
  {
    if i < |g.operands[n]| {
      var o := g.operands[n][i];
      assert o in g.operands[n];
      if o.None? {
        VisitOperandsDistinct(g, order, n, i + 1, chain);
      } else {
        VisitDistinct(g, order, o.value, chain);
        var visited := Visit(g, order, o.value, chain);
        assert Unseen(g, visited) <= Unseen(g, order);
        VisitOperandsDistinct(g, visited, n, i + 1, chain);
      }
    }
  }

  // ---------- which nodes are added ----------

  /** A path on which no recorded node has a number yet. */
  ghost predicate White(g: Graph, order: seq<Node>, p: seq<Node>) {
    g.Path(p) && forall n <- p :: g.Recorded(n) ==> n !in order
  }

  ghost predicate WhiteReach(g: Graph, order: seq<Node>, n: Node, m: Node) {
    exists p :: White(g, order, p) && p[0] == n && p[|p| - 1] == m
  }

  lemma PathCons(g: Graph, n: Node, p: seq<Node>)
    requires g.Path(p) && g.Edge(n, p[0])
    ensures g.Path([n] + p)
  {
    var q := [n] + p;
    forall i | 0 <= i < |q| - 1
      ensures g.Edge(q[i], q[i + 1])
    {
      if i > 0 {
        assert g.Edge(p[i - 1], p[i]);
      }
    }
  }

  lemma PathTail(g: Graph, p: seq<Node>)
    requires g.Path(p) && |p| >= 2
    ensures g.Edge(p[0], p[1]) && g.Path(p[1..])
  {
    var q := p[1..];
    forall i | 0 <= i < |q| - 1
      ensures g.Edge(q[i], q[i + 1])
    {
      assert g.Edge(p[i + 1], p[i + 2]);
    }
  }

  lemma WhiteReachStep(g: Graph, order: seq<Node>, later: seq<Node>, n: Node, m: Node, k: Node)
    requires order <= later && g.Edge(n, m) && (g.Recorded(n) ==> n !in order)
    requires WhiteReach(g, later, m, k)
    ensures WhiteReach(g, order, n, k)
  {
    var p :| White(g, later, p) && p[0] == m && p[|p| - 1] == k;
    PathCons(g, n, p);
    var q := [n] + p;
    assert forall x <- q :: x == n || x in p;
    assert White(g, order, q) && q[0] == n && q[|q| - 1] == k;
  }

  /** Only nodes on white paths are added. */
  lemma {:induction false} VisitSound(g: Graph, order: seq<Node>, n: Node, chain: seq<Node>, k: Node)
    requires g.Valid() && g.LocalsAcyclic() && n in g.operands && Chain(g, chain, n)
    requires k in Visit(g, order, n, chain) && k !in order
    ensures g.Recorded(k) && WhiteReach(g, order, n, k)
    decreases Unseen(g, order), LocalsLeft(g, chain), 0
  {
    if g.Recorded(n) {
      assert n in Unseen(g, order) && n !in Unseen(g, order + [n]);
      if k == n {
        var p := [n];
        assert White(g, order, p) && p[0] == n && p[|p| - 1] == n;
      } else {
        VisitOperandsSound(g, order, order + [n], n, 0, [], k);
      }
    } else {
      ChainStep(g, chain, n);
      ChainFresh(g, chain, n);
      assert n in LocalsLeft(g, chain) && n !in LocalsLeft(g, chain + [n]);
      VisitOperandsSound(g, order, order, n, 0, chain + [n], k);
    }
  }

  lemma {:induction false} VisitOperandsSound(g: Graph, start: seq<Node>, order: seq<Node>, n: Node, i: nat,
                                              chain: seq<Node>, k: Node)
    requires g.Valid() && g.LocalsAcyclic() && n in g.operands && i <= |g.operands[n]|
    requires if g.Recorded(n) then chain == [] else g.LocalPath(chain) && chain[|chain| - 1] == n
    requires start <= order && (g.Recorded(n) ==> n !in start)
    requires k in VisitOperands(g, order, n, i, chain) && k !in order
    ensures g.Recorded(k) && WhiteReach(g, start, n, k)
    decreases Unseen(g, order), LocalsLeft(g, chain), 1 + |g.operands[n]| - i
  {
    if i < |g.operands[n]| {
      var o := g.operands[n][i];
      assert o in g.operands[n];
      if o.None? {
        VisitOperandsSound(g, start, order, n, i + 1, chain, k);
      } else {
        var visited := Visit(g, order, o.value, chain);
        if k in visited {
          VisitSound(g, order, o.value, chain, k);
          WhiteReachStep(g, start, order, n, o.value, k);
        } else {
          assert Unseen(g, visited) <= Unseen(g, order);
          VisitOperandsSound(g, start, visited, n, i + 1, chain, k);
        }
      }
    }
  }

  /** A path that passes through local nodes only and ends in a recorded one. */
  ghost predicate ThroughLocals(g: Graph, p: seq<Node>) {
    g.Path(p) && g.Recorded(p[|p| - 1]) && forall i :: 0 <= i < |p| - 1 ==> p[i] in g.local
  }

  /** Every recorded node first met from `n` has a number. */
  ghost predicate Covered(g: Graph, order: seq<Node>, n: Node) {
    forall p :: ThroughLocals(g, p) && p[0] == n ==> p[|p| - 1] in order
  }

  ghost predicate OperandsCovered(g: Graph, order: seq<Node>, n: Node) {
    forall m :: g.Edge(n, m) ==> Covered(g, order, m)
  }

  /** From every numbered node each operand leads to numbered nodes. */
  ghost predicate OperandClosed(g: Graph, order: seq<Node>) {
    forall n <- order :: OperandsCovered(g, order, n)
  }

  lemma CoveredGrows(g: Graph, order: seq<Node>, later: seq<Node>)
    requires order <= later
    ensures forall n :: Covered(g, order, n) ==> Covered(g, later, n)
    ensures forall n :: OperandsCovered(g, order, n) ==> OperandsCovered(g, later, n)
  {
    forall n | Covered(g, order, n)
      ensures Covered(g, later, n)
    {
    }
  }

  lemma CoveredRecorded(g: Graph, order: seq<Node>, n: Node)
    requires n in g.operands && g.Recorded(n)
    ensures Covered(g, order, n) <==> n in order
  {
    var p := [n];
    assert ThroughLocals(g, p) && p[0] == n && p[|p| - 1] == n;
    forall p | ThroughLocals(g, p) && p[0] == n
      ensures p[|p| - 1] == n
    {
    }
  }

  lemma CoveredLocal(g: Graph, order: seq<Node>, n: Node)
    requires n in g.operands && n in g.local
    ensures Covered(g, order, n) <==> OperandsCovered(g, order, n)
  {
    if OperandsCovered(g, order, n) {
      forall p | ThroughLocals(g, p) && p[0] == n
        ensures p[|p| - 1] in order
      {
        assert |p| >= 2;
        PathTail(g, p);
        assert ThroughLocals(g, p[1..]);
        assert Covered(g, order, p[1]);
      }
    }
    if Covered(g, order, n) {
      forall m | g.Edge(n, m)
        ensures Covered(g, order, m)
      {
        forall p | ThroughLocals(g, p) && p[0] == m
          ensures p[|p| - 1] in order
        {
          PathCons(g, n, p);
          var q := [n] + p;
          assert ThroughLocals(g, q) && q[0] == n;
        }
      }
    }
  }

  /** The visited node is covered, and so are the operands of every node it added. */
  lemma {:induction false} VisitCovers(g: Graph, order: seq<Node>, n: Node, chain: seq<Node>)
    requires g.Valid() && g.LocalsAcyclic() && n in g.operands && Chain(g, chain, n)
    ensures Covered(g, Visit(g, order, n, chain), n)
    ensures forall k <- Visit(g, order, n, chain) :: k in order || OperandsCovered(g, Visit(g, order, n, chain), k)
    decreases Unseen(g, order), LocalsLeft(g, chain), 0
  {
    var r := Visit(g, order, n, chain);
    if g.Recorded(n) {
      CoveredRecorded(g, r, n);
      if n !in order {
        assert n in Unseen(g, order) && n !in Unseen(g, order + [n]);
        VisitOperandsCovers(g, order + [n], n, 0, []);
        assert OperandsCovered(g, r, n);
      }
    } else {
      ChainStep(g, chain, n);
      ChainFresh(g, chain, n);
      assert n in LocalsLeft(g, chain) && n !in LocalsLeft(g, chain + [n]);
      VisitOperandsCovers(g, order, n, 0, chain + [n]);
      CoveredLocal(g, r, n);
    }
  }

  lemma {:induction false} VisitOperandsCovers(g: Graph, order: seq<Node>, n: Node, i: nat, chain: seq<Node>)
    requires g.Valid() && g.LocalsAcyclic() && n in g.operands && i <= |g.operands[n]|
    requires if g.Recorded(n) then chain == [] else g.LocalPath(chain) && chain[|chain| - 1] == n
    requires forall j :: 0 <= j < i && g.operands[n][j].Some? ==> Covered(g, order, g.operands[n][j].value)
    ensures OperandsCovered(g, VisitOperands(g, order, n, i, chain), n)
    ensures forall k <- VisitOperands(g, order, n, i, chain) ::
              k in order || OperandsCovered(g, VisitOperands(g, order, n, i, chain), k)
    decreases Unseen(g, order), LocalsLeft(g, chain), 1 + |g.operands[n]| - i
  {
    if i < |g.operands[n]| {
      var o := g.operands[n][i];
      assert o in g.operands[n];
      if o.None? {
        VisitOperandsCovers(g, order, n, i + 1, chain);
      } else {
        VisitCovers(g, order, o.value, chain);
        var visited := Visit(g, order, o.value, chain);
        assert Unseen(g, visited) <= Unseen(g, order);
        CoveredGrows(g, order, visited);
        VisitOperandsCovers(g, visited, n, i + 1, chain);
        CoveredGrows(g, visited, VisitOperands(g, order, n, i, chain));
      }
    }
  }

  /** Walking a path from a covered node stays on covered nodes, as long as every recorded node
      on the way has covered operands. */
  lemma {:induction false} WalkCovered(g: Graph, r: seq<Node>, p: seq<Node>)
    requires g.Path(p) && Covered(g, r, p[0])
    requires forall n <- p :: g.Recorded(n) && n in r ==> OperandsCovered(g, r, n)
    ensures Covered(g, r, p[|p| - 1])
    decreases |p|
  {
    if |p| >= 2 {
      PathTail(g, p);
      assert p[0] in p;
      if g.Recorded(p[0]) {
        CoveredRecorded(g, r, p[0]);
      } else {
        CoveredLocal(g, r, p[0]);
      }
      WalkCovered(g, r, p[1..]);
    }
  }

  /** CreateMetadataSlot adds exactly the recorded nodes on white paths from its argument. */
  lemma VisitExact(g: Graph, order: seq<Node>, n: Node, chain: seq<Node>, k: Node)
    requires g.Valid() && g.LocalsAcyclic() && n in g.operands && Chain(g, chain, n)
    ensures k in Visit(g, order, n, chain) <==>
            k in order || (k in g.operands && g.Recorded(k) && WhiteReach(g, order, n, k))
  {
    var r := Visit(g, order, n, chain);
    if k in r && k !in order {
      VisitSound(g, order, n, chain, k);
    }
    if k in g.operands && g.Recorded(k) && WhiteReach(g, order, n, k) {
      var p :| White(g, order, p) && p[0] == n && p[|p| - 1] == k;
      VisitCovers(g, order, n, chain);
      WalkCovered(g, r, p);
      CoveredRecorded(g, r, k);
    }
  }

  ghost predicate Reach(g: Graph, n: Node, m: Node) {
    exists p :: g.Path(p) && p[0] == n && p[|p| - 1] == m
  }

  /**
   From an operand-closed numbering, numbering `n` adds exactly the recorded nodes reachable from
   it (also through function-local ones), gives no node two numbers, keeps all earlier numbers
   (`Visit` extends the order) and leaves the numbering operand-closed.
   */
  lemma NumberingReachable(g: Graph, order: seq<Node>, n: Node)
    requires g.Valid() && g.LocalsAcyclic() && n in g.operands
    requires NumbersRecorded(g, order) && OperandClosed(g, order)
    ensures var r := Visit(g, order, n, []);
            && NumbersRecorded(g, r) && OperandClosed(g, r)
            && forall k :: k in r <==> k in order || (k in g.operands && g.Recorded(k) && Reach(g, n, k))
  {
    var r := Visit(g, order, n, []);
    VisitDistinct(g, order, n, []);
    VisitCovers(g, order, n, []);
    CoveredGrows(g, order, r);
    forall k
      ensures k in r <==> k in order || (k in g.operands && g.Recorded(k) && Reach(g, n, k))
    {
      if k in r && k !in order {
        VisitSound(g, order, n, [], k);
      }
      if k in g.operands && g.Recorded(k) && Reach(g, n, k) {
        var p :| g.Path(p) && p[0] == n && p[|p| - 1] == k;
        WalkCovered(g, r, p);
        CoveredRecorded(g, r, k);
      }
    }
  }

  // ---------- the order in which they are added ----------

  /** Some visit, started when `r[i]` was about to be recorded, ended when j nodes had numbers. */
  ghost predicate Block(g: Graph, r: seq<Node>, i: nat, j: nat) {
    && i < j <= |r| && g.Valid() && g.LocalsAcyclic() && r[i] in g.operands && g.Recorded(r[i]) && r[i] !in r[..i]
    && r[..j] == Visit(g, r[..i], r[i], [])
  }

  lemma BlockGrows(g: Graph, r: seq<Node>, s: seq<Node>, i: nat, j: nat)
    requires Block(g, r, i, j) && r <= s
    ensures Block(g, s, i, j)
  {
    assert s[..i] == r[..i] && s[..j] == r[..j];
  }

  lemma ChainIrrelevant(g: Graph, order: seq<Node>, n: Node, chain: seq<Node>)
    requires g.Valid() && g.LocalsAcyclic() && n in g.operands && Chain(g, chain, n) && g.Recorded(n)
    ensures Visit(g, order, n, chain) == Visit(g, order, n, [])
  {
  }

  lemma {:induction false} VisitBlocks(g: Graph, order: seq<Node>, n: Node, chain: seq<Node>, i: nat) returns (j: nat)
    requires g.Valid() && g.LocalsAcyclic() && n in g.operands && Chain(g, chain, n)
    requires |order| <= i < |Visit(g, order, n, chain)|
    ensures Block(g, Visit(g, order, n, chain), i, j)
    decreases Unseen(g, order), LocalsLeft(g, chain), 0
  {
    var r := Visit(g, order, n, chain);
    if g.Recorded(n) {
      assert n in Unseen(g, order) && n !in Unseen(g, order + [n]);
      if i == |order| {
        j := |r|;
        assert r[..i] == order && r[..j] == r;
        ChainIrrelevant(g, order, n, chain);
      } else {
        j := VisitOperandsBlocks(g, order + [n], n, 0, [], i);
      }
    } else {
      ChainStep(g, chain, n);
      ChainFresh(g, chain, n);
      assert n in LocalsLeft(g, chain) && n !in LocalsLeft(g, chain + [n]);
      j := VisitOperandsBlocks(g, order, n, 0, chain + [n], i);
    }
  }

  lemma {:induction false} VisitOperandsBlocks(g: Graph, order: seq<Node>, n: Node, o: nat, chain: seq<Node>, i: nat)
    returns (j: nat)
    requires g.Valid() && g.LocalsAcyclic() && n in g.operands && o <= |g.operands[n]|
    requires if g.Recorded(n) then chain == [] else g.LocalPath(chain) && chain[|chain| - 1] == n
    requires |order| <= i < |VisitOperands(g, order, n, o, chain)|
    ensures Block(g, VisitOperands(g, order, n, o, chain), i, j)
    decreases Unseen(g, order), LocalsLeft(g, chain), 1 + |g.operands[n]| - o
  {
    var op := g.operands[n][o];
    assert op in g.operands[n];
    if op.None? {
      j := VisitOperandsBlocks(g, order, n, o + 1, chain, i);
    } else {
      var visited := Visit(g, order, op.value, chain);
      assert Unseen(g, visited) <= Unseen(g, order);
      if i < |visited| {
        j := VisitBlocks(g, order, op.value, chain, i);
        BlockGrows(g, visited, VisitOperands(g, order, n, o, chain), i, j);
      } else {
        j := VisitOperandsBlocks(g, visited, n, o + 1, chain, i);
      }
    }
  }

  /** The nodes numbered i, ..., j-1 are the recorded ones on white paths from the i-th. */
  ghost predicate PreorderBlock(g: Graph, r: seq<Node>, i: nat, j: nat) {
    && i < j <= |r|
    && forall k :: k in r[i..j] <==> k in g.operands && g.Recorded(k) && WhiteReach(g, r[..i], r[i], k)
  }

  lemma Apart(r: seq<Node>, i: nat, j: nat, k: Node)
    requires Distinct(r) && i <= j <= |r| && k in r[i..j]
    ensures k !in r[..i]
  {
    var a :| i <= a < j && r[a] == k;
    forall b | 0 <= b < i
      ensures r[b] != k
    {
    }
  }

  /** The nodes numbered from, ..., to-1 are those that an operand leads to. */
  ghost predicate Piece(g: Graph, r: seq<Node>, from: nat, to: nat, o: Option<Node>) {
    && from <= to <= |r|
    && forall k :: k in r[from..to] <==>
         o.Some? && k in g.operands && g.Recorded(k) && WhiteReach(g, r[..from], o.value, k)
  }

  lemma PieceGrows(g: Graph, r: seq<Node>, s: seq<Node>, from: nat, to: nat, o: Option<Node>)
    requires Piece(g, r, from, to, o) && r <= s
    ensures Piece(g, s, from, to, o)
  {
    assert s[..from] == r[..from] && s[from..to] == r[from..to];
  }

  /** The end of a white path has no number yet, if it is recorded. */
  lemma WhiteEnd(g: Graph, order: seq<Node>, n: Node, k: Node)
    requires WhiteReach(g, order, n, k) && g.Recorded(k)
    ensures k !in order
  {
    var p :| White(g, order, p) && p[0] == n && p[|p| - 1] == k;
    assert p[|p| - 1] in p;
  }

  lemma AddedBehind(order: seq<Node>, r: seq<Node>, k: Node)
    requires order <= r && Distinct(r)
    ensures k in r[|order|..] <==> k in r && k !in order
  {
    assert r == order + r[|order|..];
    if k in r[|order|..] {
      Apart(r, |order|, |r|, k);
    }
  }

  lemma VisitPiece(g: Graph, order: seq<Node>, n: Node, chain: seq<Node>)
    requires g.Valid() && g.LocalsAcyclic() && n in g.operands && Chain(g, chain, n) && NumbersRecorded(g, order)
    ensures var r := Visit(g, order, n, chain);
            NumbersRecorded(g, r) && Piece(g, r, |order|, |r|, Some(n))
  {
    var r := Visit(g, order, n, chain);
    VisitDistinct(g, order, n, chain);
    assert r[..|order|] == order && r[|order|..|r|] == r[|order|..];
    forall k
      ensures k in r[|order|..] <==> k in g.operands && g.Recorded(k) && WhiteReach(g, order, n, k)
    {
      VisitExact(g, order, n, chain, k);
      AddedBehind(order, r, k);
      if WhiteReach(g, order, n, k) && g.Recorded(k) {
        WhiteEnd(g, order, n, k);
      }
    }
  }

  /** Operand by operand, what they lead to is numbered next: that of the first one gets the numbers
      cuts[0], ..., cuts[1]-1, that of the second one cuts[1], ..., cuts[2]-1, and so on. */
  ghost predicate Pieces(g: Graph, r: seq<Node>, ops: seq<Option<Node>>, cuts: seq<nat>)
    decreases ops
  {
    && |cuts| == |ops| + 1
    && (ops != [] ==> Piece(g, r, cuts[0], cuts[1], ops[0]) && Pieces(g, r, ops[1..], cuts[1..]))
  }

  lemma {:induction false} PiecesGrow(g: Graph, r: seq<Node>, s: seq<Node>, ops: seq<Option<Node>>, cuts: seq<nat>)
    requires Pieces(g, r, ops, cuts) && r <= s
    ensures Pieces(g, s, ops, cuts)
    decreases ops
  {
    if ops != [] {
      PieceGrows(g, r, s, cuts[0], cuts[1], ops[0]);
      PiecesGrow(g, r, s, ops[1..], cuts[1..]);
    }
  }

  /** What the operands of `n` lead to is numbered in the order of the operands. */
  ghost predicate InOperandOrder(g: Graph, r: seq<Node>, n: Node, cuts: seq<nat>)
    requires n in g.operands
  {
    Pieces(g, r, g.operands[n], cuts)
  }

  /** What one operand adds. */
  lemma OneOperand(g: Graph, order: seq<Node>, n: Node, i: nat, chain: seq<Node>)
    returns (visited: seq<Node>)
    requires g.Valid() && g.LocalsAcyclic() && n in g.operands && i < |g.operands[n]|
    requires if g.Recorded(n) then chain == [] else g.LocalPath(chain) && chain[|chain| - 1] == n
    requires NumbersRecorded(g, order)
    ensures NumbersRecorded(g, visited) && order <= visited
    ensures Piece(g, visited, |order|, |visited|, g.operands[n][i])
    ensures VisitOperands(g, order, n, i, chain) == VisitOperands(g, visited, n, i + 1, chain)
  {
    var op := g.operands[n][i];
    assert op in g.operands[n];
    if op.None? {
      visited := order;
    } else {
      visited := Visit(g, order, op.value, chain);
      VisitPiece(g, order, op.value, chain);
    }
  }

  lemma JoinCuts(g: Graph, order: seq<Node>, visited: seq<Node>, r: seq<Node>, ops: seq<Option<Node>>, i: nat,
                 rest: seq<nat>)
    requires i < |ops| && visited <= r && Piece(g, visited, |order|, |visited|, ops[i])
    requires Pieces(g, r, ops[i + 1..], rest) && rest[0] == |visited|
    ensures Pieces(g, r, ops[i..], [|order|] + rest)
  {
    PieceGrows(g, visited, r, |order|, |visited|, ops[i]);
    assert ops[i..][1..] == ops[i + 1..] && ([|order|] + rest)[1..] == rest;
  }

  lemma {:induction false} OperandCuts(g: Graph, order: seq<Node>, n: Node, i: nat, chain: seq<Node>)
    returns (cuts: seq<nat>)
    requires g.Valid() && g.LocalsAcyclic() && n in g.operands && i <= |g.operands[n]|
    requires if g.Recorded(n) then chain == [] else g.LocalPath(chain) && chain[|chain| - 1] == n
    requires NumbersRecorded(g, order)
    ensures var r := VisitOperands(g, order, n, i, chain);
            Pieces(g, r, g.operands[n][i..], cuts) && cuts[0] == |order| && cuts[|cuts| - 1] == |r|
    decreases |g.operands[n]| - i
  {
    if i == |g.operands[n]| {
      cuts := [|order|];
    } else {
      var visited := OneOperand(g, order, n, i, chain);
      var rest := OperandCuts(g, visited, n, i + 1, chain);
      JoinCuts(g, order, visited, VisitOperands(g, order, n, i, chain), g.operands[n], i, rest);
      cuts := [|order|] + rest;
    }
  }

  /** A function-local node gets no number; what its operands lead to comes in their order, too. */
  lemma LocalOperandOrder(g: Graph, order: seq<Node>, n: Node, chain: seq<Node>)
    requires g.Valid() && g.LocalsAcyclic() && n in g.operands && Chain(g, chain, n) && n in g.local
    requires NumbersRecorded(g, order)
    ensures var r := Visit(g, order, n, chain);
            exists cuts :: InOperandOrder(g, r, n, cuts) && cuts[0] == |order| && cuts[|g.operands[n]|] == |r|
  {
    ChainStep(g, chain, n);
    ChainFresh(g, chain, n);
    var cuts := OperandCuts(g, order, n, 0, chain + [n]);
    assert g.operands[n][0..] == g.operands[n];
    assert InOperandOrder(g, Visit(g, order, n, chain), n, cuts);
  }

  lemma BlockOperandOrder(g: Graph, r: seq<Node>, i: nat, j: nat) returns (cuts: seq<nat>)
    requires Block(g, r, i, j) && NumbersRecorded(g, r[..i])
    ensures InOperandOrder(g, r, r[i], cuts) && cuts[0] == i + 1 && cuts[|g.operands[r[i]]|] == j
  {
    var n := r[i];
    assert NumbersRecorded(g, r[..i] + [n]);
    cuts := OperandCuts(g, r[..i] + [n], n, 0, []);
    assert g.operands[n][0..] == g.operands[n];
    PiecesGrow(g, r[..j], r, g.operands[n], cuts);
  }

  /**
   Depth-first preorder: each node that a visit numbers is followed at once by everything that
   can be reached from it along paths on which no node had a number yet, and by nothing else;
   and this is numbered operand by operand, in the order of the operands.
   */
  lemma NumberingPreorder(g: Graph, order: seq<Node>, n: Node, i: nat)
    requires g.Valid() && g.LocalsAcyclic() && n in g.operands && NumbersRecorded(g, order)
    requires |order| <= i < |Visit(g, order, n, [])|
    ensures Visit(g, order, n, [])[i] in g.operands
    ensures var r := Visit(g, order, n, []);
            exists j, cuts ::
              PreorderBlock(g, r, i, j) && InOperandOrder(g, r, r[i], cuts)
              && cuts[0] == i + 1 && cuts[|g.operands[r[i]]|] == j
  {
    var r := Visit(g, order, n, []);
    VisitDistinct(g, order, n, []);
    var j := VisitBlocks(g, order, n, [], i);
    VisitPiece(g, r[..i], r[i], []);
    assert r[..j][i..j] == r[i..j] && r[..j][..i] == r[..i];
    assert PreorderBlock(g, r, i, j);
    var cuts := BlockOperandOrder(g, r, i, j);
  }
}
