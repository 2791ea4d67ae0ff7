/**
 When CreateMetadataSlot comes back (full-trace/SlotTracker.h:376-394), on any graph: the search
 again, cut off at a depth, and the exact condition under which some depth is enough.
 */
module MetadataSearch {
  import opened Wrappers
  import opened Metadata

  /** The numbering so far, and the function-local nodes passed through. */
  datatype Found = Found(order: seq<Node>, passed: set<Node>)

  /** CreateMetadataSlot(n); None if its recursion goes deeper than `depth`. */
  function Search(g: Graph, s: Found, n: Node, depth: nat): (r: Option<Found>)
    requires n in g.operands
    decreases depth, 0
  {
    if depth == 0 then None
    else if !g.Recorded(n) then SearchOperands(g, s.(passed := s.passed + {n}), g.operands[n], depth - 1)
    else if n in s.order then Some(s)
    else SearchOperands(g, s.(order := s.order + [n]), g.operands[n], depth - 1)
  }

  function SearchOperands(g: Graph, s: Found, ops: seq<Option<Node>>, depth: nat): (r: Option<Found>)
    decreases depth, 1 + |ops|
  {
    if ops == [] then Some(s)
    else if ops[0].None? || ops[0].value !in g.operands then SearchOperands(g, s, ops[1..], depth)
    else
      match Search(g, s, ops[0].value, depth)
      case None => None
      case Some(next) => SearchOperands(g, next, ops[1..], depth)
  }

  ghost predicate Comes(g: Graph, s: Found, n: Node)
    requires n in g.operands
  {
    exists depth: nat :: Search(g, s, n, depth).Some?
  }

  ghost predicate Grows(s: Found, t: Found) {
    s.order <= t.order && s.passed <= t.passed
  }

  lemma {:induction false} SearchGrows(g: Graph, s: Found, n: Node, depth: nat)
    requires n in g.operands && Search(g, s, n, depth).Some?
    ensures Grows(s, Search(g, s, n, depth).value)
    decreases depth, 0
  {
    if !g.Recorded(n) {
      OperandsGrow(g, s.(passed := s.passed + {n}), g.operands[n], depth - 1);
    } else if n !in s.order {
      OperandsGrow(g, s.(order := s.order + [n]), g.operands[n], depth - 1);
    }
  }

  lemma {:induction false} OperandsGrow(g: Graph, s: Found, ops: seq<Option<Node>>, depth: nat)
    requires SearchOperands(g, s, ops, depth).Some?
    ensures Grows(s, SearchOperands(g, s, ops, depth).value)
    decreases depth, 1 + |ops|
  {
    if ops != [] {
      if ops[0].None? || ops[0].value !in g.operands {
        OperandsGrow(g, s, ops[1..], depth);
      } else {
        SearchGrows(g, s, ops[0].value, depth);
        OperandsGrow(g, Search(g, s, ops[0].value, depth).value, ops[1..], depth);
      }
    }
  }

  // ---------- what a search that comes back has passed ----------

  ghost predicate Met(g: Graph, t: Found, n: Node) {
    if g.Recorded(n) then n in t.order else n in t.passed
  }

  ghost predicate OperandsMet(g: Graph, t: Found, ops: seq<Option<Node>>) {
    forall o <- ops :: o.Some? && o.value in g.operands ==> Met(g, t, o.value)
  }

  /** The search from this local node came back, with a bound below `depth`. */
  ghost predicate Ended(g: Graph, n: Node, depth: nat) {
    n in g.operands && exists s: Found, d: nat :: d <= depth && Search(g, s, n, d).Some?
  }

  /** New nodes have all their operands met, and the searches from new local nodes ended. */
  ghost predicate Complete(g: Graph, s: Found, t: Found, depth: nat) {
    && (forall n <- t.order :: n in s.order || (n in g.operands && OperandsMet(g, t, g.operands[n])))
    && (forall n <- t.passed :: n in s.passed ||
                                (n in g.operands && OperandsMet(g, t, g.operands[n]) && Ended(g, n, depth)))
  }

  lemma MetGrows(g: Graph, t: Found, u: Found, ops: seq<Option<Node>>)
    requires Grows(t, u) && OperandsMet(g, t, ops)
    ensures OperandsMet(g, u, ops)
  {
  }

  lemma CompleteTwice(g: Graph, s: Found, t: Found, u: Found, depth: nat)
    requires Complete(g, s, t, depth) && Complete(g, t, u, depth) && Grows(t, u)
    ensures Complete(g, s, u, depth)
  {
    forall n | n in u.order && n !in s.order
      ensures n in g.operands && OperandsMet(g, u, g.operands[n])
    {
      if n in t.order {
        MetGrows(g, t, u, g.operands[n]);
      }
    }
    forall n | n in u.passed && n !in s.passed
      ensures n in g.operands && OperandsMet(g, u, g.operands[n]) && Ended(g, n, depth)
    {
      if n in t.passed {
        MetGrows(g, t, u, g.operands[n]);
      }
    }
  }

  lemma {:induction false} SearchComplete(g: Graph, s: Found, n: Node, depth: nat)
    requires n in g.operands && Search(g, s, n, depth).Some?
    ensures Complete(g, s, Search(g, s, n, depth).value, depth) && Met(g, Search(g, s, n, depth).value, n)
    decreases depth, 0
  {
    SearchGrows(g, s, n, depth);
    var t := Search(g, s, n, depth).value;
    if !g.Recorded(n) {
      var u := s.(passed := s.passed + {n});
      OperandsGrow(g, u, g.operands[n], depth - 1);
      OperandsComplete(g, u, g.operands[n], depth - 1);
      assert Ended(g, n, depth);
      Deeper(g, u, t, depth - 1);
    } else if n !in s.order {
      var u := s.(order := s.order + [n]);
      OperandsGrow(g, u, g.operands[n], depth - 1);
      OperandsComplete(g, u, g.operands[n], depth - 1);
      Deeper(g, u, t, depth - 1);
      assert n in u.order;
    }
  }

  lemma Deeper(g: Graph, s: Found, t: Found, depth: nat)
    requires Complete(g, s, t, depth)
    ensures Complete(g, s, t, depth + 1)
  {
  }

  lemma {:induction false} OperandsComplete(g: Graph, s: Found, ops: seq<Option<Node>>, depth: nat)
    requires SearchOperands(g, s, ops, depth).Some?
    ensures var t := SearchOperands(g, s, ops, depth).value;
            Complete(g, s, t, depth) && OperandsMet(g, t, ops)
    decreases depth, 1 + |ops|
  {
    if ops != [] {
      var t := SearchOperands(g, s, ops, depth).value;
      if ops[0].None? || ops[0].value !in g.operands {
        OperandsComplete(g, s, ops[1..], depth);
      } else {
        var next := Search(g, s, ops[0].value, depth).value;
        SearchComplete(g, s, ops[0].value, depth);
        OperandsComplete(g, next, ops[1..], depth);
        OperandsGrow(g, next, ops[1..], depth);
        CompleteTwice(g, s, next, t, depth);
      }
      assert forall o <- ops :: o == ops[0] || o in ops[1..];
    }
  }

  /** The search has met everything on a white path from where it started. */
  lemma {:induction false} MetAlong(g: Graph, s: Found, t: Found, depth: nat, p: seq<Node>)
    requires g.Valid() && Complete(g, s, t, depth) && s.passed == {} && White(g, s.order, p) && Met(g, t, p[0])
    ensures Met(g, t, p[|p| - 1])
    decreases |p|
  {
    if |p| >= 2 {
      PathTail(g, p);
      assert p[0] in p && Some(p[1]) in g.operands[p[0]];
      assert OperandsMet(g, t, g.operands[p[0]]);
      assert Met(g, t, p[1]);
      MetAlong(g, s, t, depth, p[1..]);
    }
  }

  // ---------- local cycles ----------

  ghost predicate LocalCycle(g: Graph, c: seq<Node>) {
    g.LocalPath(c) && |c| >= 2 && c[0] == c[|c| - 1]
  }

  /** Some cycle of local nodes can be reached along nodes without a number. */
  ghost predicate MeetsLocalCycle(g: Graph, order: seq<Node>, n: Node) {
    exists p, c :: White(g, order, p) && p[0] == n && LocalCycle(g, c) && c[0] == p[|p| - 1]
  }

  lemma {:induction false} OperandSearched(g: Graph, s: Found, ops: seq<Option<Node>>, m: Node, depth: nat)
    returns (u: Found)
    requires SearchOperands(g, s, ops, depth).Some? && Some(m) in ops && m in g.operands
    ensures Search(g, u, m, depth).Some?
    decreases ops
  {
    if ops[0] == Some(m) {
      u := s;
    } else if ops[0].None? || ops[0].value !in g.operands {
      u := OperandSearched(g, s, ops[1..], m, depth);
    } else {
      u := OperandSearched(g, Search(g, s, ops[0].value, depth).value, ops[1..], m, depth);
    }
  }

  lemma Rotated(g: Graph, c: seq<Node>)
    requires LocalCycle(g, c)
    ensures LocalCycle(g, c[1..] + [c[1]]) && g.Edge(c[0], c[1])
  {
    var d := c[1..] + [c[1]];
    forall i | 0 <= i < |d| - 1
      ensures g.Edge(d[i], d[i + 1])
    {
      if i < |c| - 2 {
        assert g.Edge(c[i + 1], c[i + 2]);
      } else {
        assert d[i] == c[|c| - 1] == c[0] && g.Edge(c[0], c[0 + 1]);
      }
    }
    assert g.Edge(c[0], c[0 + 1]);
  }

  /** A search that gets to a cycle of local nodes goes round in it. */
  lemma {:induction false} CycleNeverEnds(g: Graph, s: Found, c: seq<Node>, depth: nat)
    requires LocalCycle(g, c) && c[0] in g.operands
    ensures Search(g, s, c[0], depth).None?
    decreases depth
  {
    if Search(g, s, c[0], depth).Some? {
      Rotated(g, c);
      var u := OperandSearched(g, s.(passed := s.passed + {c[0]}), g.operands[c[0]], c[1], depth - 1);
      CycleNeverEnds(g, u, c[1..] + [c[1]], depth - 1);
    }
  }

  // ---------- without them the search comes back ----------

  /** A bound on the depth: the chain of local nodes may be walked once for every unseen node. */
  ghost function Bound(g: Graph, order: seq<Node>, chain: seq<Node>): nat {
    |Unseen(g, order)| * (|g.local| + 2) + |LocalsLeft(g, chain)| + 1
  }

  /** How the search came to `n`: along a white path, which ends in the chain of local nodes. */
  ghost predicate Trail(g: Graph, start: seq<Node>, root: Node, trail: seq<Node>, chain: seq<Node>, n: Node) {
    && Chain(g, chain, n)
    && (if trail == [] then n == root && chain == []
        else
          && White(g, start, trail) && trail[0] == root && g.Edge(trail[|trail| - 1], n)
          && |chain| <= |trail| && trail[|trail| - |chain|..] == chain)
  }

  lemma TrailStep(g: Graph, start: seq<Node>, root: Node, trail: seq<Node>, chain: seq<Node>, n: Node)
    requires Trail(g, start, root, trail, chain, n) && n in g.operands && (g.Recorded(n) ==> n !in start)
    ensures White(g, start, trail + [n]) && (trail + [n])[0] == root
  {
    var p := trail + [n];
    forall i | 0 <= i < |p| - 1
      ensures g.Edge(p[i], p[i + 1])
    {
      if i < |trail| - 1 {
        assert g.Edge(trail[i], trail[i + 1]);
      }
    }
  }

  lemma TrailFresh(g: Graph, start: seq<Node>, root: Node, trail: seq<Node>, chain: seq<Node>, n: Node)
    requires Trail(g, start, root, trail, chain, n) && n in g.operands && n in g.local
    ensures n in chain ==> MeetsLocalCycle(g, start, root)
  {
    if n in chain {
      ChainStep(g, chain, n);
      TrailStep(g, start, root, trail, chain, n);
      var k :| 0 <= k < |chain| && chain[k] == n;
      var all := chain + [n];
      var c := all[k..];
      forall i | 0 <= i < |c| - 1
        ensures g.Edge(c[i], c[i + 1])
      {
        assert g.Edge(all[k + i], all[k + i + 1]);
      }
      assert LocalCycle(g, c) && c[0] == (trail + [n])[|trail|];
    }
  }

  lemma UnseenLess(g: Graph, order: seq<Node>, chain: seq<Node>, n: Node)
    requires n in g.operands && g.Recorded(n) && n !in order
    ensures Bound(g, order + [n], []) < Bound(g, order, chain)
  {
    var before, after := Unseen(g, order), Unseen(g, order + [n]);
    assert before == after + {n} && n !in after;
    assert LocalsLeft(g, []) == g.local;
    assert |before| * (|g.local| + 2) == |after| * (|g.local| + 2) + (|g.local| + 2);
  }

  lemma LocalsLess(g: Graph, order: seq<Node>, chain: seq<Node>, n: Node)
    requires n in g.local && n !in chain
    ensures Bound(g, order, chain + [n]) < Bound(g, order, chain)
  {
    var before, after := LocalsLeft(g, chain), LocalsLeft(g, chain + [n]);
    assert before == after + {n} && n !in after;
  }

  lemma BoundShrinks(g: Graph, order: seq<Node>, later: seq<Node>, chain: seq<Node>)
    requires order <= later
    ensures Bound(g, later, chain) <= Bound(g, order, chain)
  {
    assert Unseen(g, later) <= Unseen(g, order);
    Sizes(Unseen(g, later), Unseen(g, order));
    Times(|Unseen(g, later)|, |Unseen(g, order)|, |g.local| + 2);
  }

  lemma Sizes(a: set<Node>, b: set<Node>)
    requires a <= b
    ensures |a| <= |b|
  {
    assert b == a + (b - a);
  }

  lemma Times(a: nat, b: nat, c: nat)
    requires a <= b
    ensures a * c <= b * c
  {
  }

  /** The same when `n` has been entered. */
  ghost predicate Entered(g: Graph, start: seq<Node>, root: Node, trail: seq<Node>, chain: seq<Node>, n: Node) {
    && White(g, start, trail) && trail[0] == root && trail[|trail| - 1] == n
    && (if g.Recorded(n) then chain == [] else g.LocalPath(chain) && chain[|chain| - 1] == n)
    && |chain| <= |trail| && trail[|trail| - |chain|..] == chain
  }

  lemma EnterRecorded(g: Graph, start: seq<Node>, root: Node, trail: seq<Node>, chain: seq<Node>, n: Node)
    requires Trail(g, start, root, trail, chain, n) && n in g.operands && g.Recorded(n) && n !in start
    ensures Entered(g, start, root, trail + [n], [], n)
  {
    TrailStep(g, start, root, trail, chain, n);
  }

  lemma EnterLocal(g: Graph, start: seq<Node>, root: Node, trail: seq<Node>, chain: seq<Node>, n: Node)
    requires Trail(g, start, root, trail, chain, n) && n in g.operands && n in g.local
    ensures Entered(g, start, root, trail + [n], chain + [n], n)
  {
    TrailStep(g, start, root, trail, chain, n);
    ChainStep(g, chain, n);
    assert (trail + [n])[|trail| - |chain|..] == chain + [n];
  }

  lemma LeadsTo(g: Graph, start: seq<Node>, root: Node, trail: seq<Node>, chain: seq<Node>, n: Node, m: Node)
    requires Entered(g, start, root, trail, chain, n) && g.Edge(n, m)
    ensures Trail(g, start, root, trail, chain, m)
  {
  }

  lemma {:induction false} SearchEnds(g: Graph, start: seq<Node>, root: Node, s: Found, n: Node, trail: seq<Node>,
                                      chain: seq<Node>, depth: nat)
    requires g.Valid() && n in g.operands && start <= s.order && !MeetsLocalCycle(g, start, root)
    requires Trail(g, start, root, trail, chain, n) && depth >= Bound(g, s.order, chain)
    ensures Search(g, s, n, depth).Some?
    decreases depth, 0
  {
    assert g.operands[n][0..] == g.operands[n];
    if !g.Recorded(n) {
      TrailFresh(g, start, root, trail, chain, n);
      EnterLocal(g, start, root, trail, chain, n);
      LocalsLess(g, s.order, chain, n);
      OperandsEnd(g, start, root, s.(passed := s.passed + {n}), n, 0, trail + [n], chain + [n], depth - 1);
    } else if n !in s.order {
      EnterRecorded(g, start, root, trail, chain, n);
      UnseenLess(g, s.order, chain, n);
      OperandsEnd(g, start, root, s.(order := s.order + [n]), n, 0, trail + [n], [], depth - 1);
    }
  }

  lemma {:induction false} OperandsEnd(g: Graph, start: seq<Node>, root: Node, s: Found, n: Node, i: nat,
                                       trail: seq<Node>, chain: seq<Node>, depth: nat)
    requires g.Valid() && n in g.operands && i <= |g.operands[n]| && start <= s.order
    requires !MeetsLocalCycle(g, start, root) && Entered(g, start, root, trail, chain, n)
    requires depth >= Bound(g, s.order, chain)
    ensures SearchOperands(g, s, g.operands[n][i..], depth).Some?
    decreases depth, 1 + |g.operands[n]| - i
  {
    var ops := g.operands[n][i..];
    if ops != [] {
      assert ops[1..] == g.operands[n][i + 1..] && ops[0] in g.operands[n];
      if ops[0].None? {
        OperandsEnd(g, start, root, s, n, i + 1, trail, chain, depth);
      } else {
        LeadsTo(g, start, root, trail, chain, n, ops[0].value);
        SearchEnds(g, start, root, s, ops[0].value, trail, chain, depth);
        SearchGrows(g, s, ops[0].value, depth);
        var next := Search(g, s, ops[0].value, depth).value;
        BoundShrinks(g, s.order, next.order, chain);
        OperandsEnd(g, start, root, next, n, i + 1, trail, chain, depth);
      }
    }
  }

  /**
   Exactly when CreateMetadataSlot comes back: if and only if no cycle that consists of
   function-local nodes only can be reached from its argument along nodes without a number.
   */
  lemma ComesIffNoLocalCycle(g: Graph, order: seq<Node>, n: Node)
    requires g.Valid() && n in g.operands
    ensures Comes(g, Found(order, {}), n) <==> !MeetsLocalCycle(g, order, n)
  {
    var s := Found(order, {});
    if !MeetsLocalCycle(g, order, n) {
      SearchEnds(g, order, n, s, n, [], [], Bound(g, order, []));
    }
    if depth: nat :| Search(g, s, n, depth).Some? {
      forall p, c | White(g, order, p) && p[0] == n && LocalCycle(g, c)
        ensures c[0] != p[|p| - 1]
      {
        NoCycleMet(g, s, n, depth, p, c);
      }
    }
  }

  lemma NoCycleMet(g: Graph, s: Found, n: Node, depth: nat, p: seq<Node>, c: seq<Node>)
    requires g.Valid() && n in g.operands && s.passed == {} && Search(g, s, n, depth).Some?
    requires White(g, s.order, p) && p[0] == n && LocalCycle(g, c)
    ensures c[0] != p[|p| - 1]
  {
    SearchComplete(g, s, n, depth);
    var t := Search(g, s, n, depth).value;
    MetAlong(g, s, t, depth, p);
    if c[0] == p[|p| - 1] {
      assert c[0] in g.local && Ended(g, c[0], depth);
      var u: Found, d: nat :| d <= depth && Search(g, u, c[0], d).Some?;
      CycleNeverEnds(g, u, c, d);
    }
  }

  // ---------- the search and the numbering ----------

  /** Where no local cycle is at all, the search finds the numbering of `Metadata.Visit`. */
  lemma {:induction false} SearchIsVisit(g: Graph, s: Found, n: Node, chain: seq<Node>, depth: nat)
    requires g.Valid() && g.LocalsAcyclic() && n in g.operands && Chain(g, chain, n)
    requires Search(g, s, n, depth).Some?
    ensures Search(g, s, n, depth).value.order == Visit(g, s.order, n, chain)
    decreases depth, 0
  {
    if !g.Recorded(n) {
      ChainStep(g, chain, n);
      ChainFresh(g, chain, n);
      assert g.operands[n][0..] == g.operands[n];
      OperandsAreVisited(g, s.(passed := s.passed + {n}), n, 0, chain + [n], depth - 1);
    } else if n !in s.order {
      assert g.operands[n][0..] == g.operands[n];
      OperandsAreVisited(g, s.(order := s.order + [n]), n, 0, [], depth - 1);
    }
  }

  lemma {:induction false} OperandsAreVisited(g: Graph, s: Found, n: Node, i: nat, chain: seq<Node>, depth: nat)
    requires g.Valid() && g.LocalsAcyclic() && n in g.operands && i <= |g.operands[n]|
    requires if g.Recorded(n) then chain == [] else g.LocalPath(chain) && chain[|chain| - 1] == n
    requires SearchOperands(g, s, g.operands[n][i..], depth).Some?
    ensures SearchOperands(g, s, g.operands[n][i..], depth).value.order == VisitOperands(g, s.order, n, i, chain)
    decreases depth, 1 + |g.operands[n]| - i
  {
    var ops := g.operands[n][i..];
    if ops != [] {
      assert ops[1..] == g.operands[n][i + 1..] && ops[0] in g.operands[n];
      if ops[0].None? {
        OperandsAreVisited(g, s, n, i + 1, chain, depth);
      } else {
        SearchIsVisit(g, s, ops[0].value, chain, depth);
        OperandsAreVisited(g, Search(g, s, ops[0].value, depth).value, n, i + 1, chain, depth);
      }
    }
  }
}
