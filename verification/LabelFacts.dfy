/** What the label map holds after a translation unit, said without the walk. */
module LabelFacts {
  import opened Wrappers
  import opened Labels

  predicate Visited(d: FunctionDecl) {
    !d.isMethod && d.body.Some?
  }

  ghost predicate IsLabel(s: Option<Stmt>, name: string, line: nat) {
    s.Some? && s.value.Label? && s.value.name == name && StandsFor(s.value, line)
  }

  ghost predicate IsCall(s: Option<Stmt>, callee: string) {
    s.Some? && s.value.Call? && s.value.callee == Some(callee)
  }

  /** The body holds a label with this name, standing for this line. */
  ghost predicate HasLabel(d: FunctionDecl, name: string, line: nat) {
    Visited(d) && exists s :: Inside(d.body.value, s) && IsLabel(s, name, line)
  }

  /** A visited function other than main calls `callee` directly. */
  ghost predicate CallsDirectly(d: FunctionDecl, callee: string) {
    Visited(d) && !d.isMain && exists s :: Inside(d.body.value, s) && IsCall(s, callee)
  }

  /** Label names are unique in each function, as C demands; declarations of the same name may
      repeat a body. */
  ghost predicate LabelsAgree(ds: seq<FunctionDecl>) {
    forall d <- ds, e <- ds, name, k, l ::
      d.name == e.name && HasLabel(d, name, k) && HasLabel(e, name, l) ==> k == l
  }

  lemma WalkMembers(s: Stmt)
    ensures forall x :: x in WalkOrder(Some(s)) <==> Inside(s, x)
  {
    forall x
      ensures x in WalkOrder(Some(s)) <==> Inside(s, x)
    {
      WalkInside(s, x);
    }
  }

  // ---------- callers, keys and inlining ----------

  lemma HandleOne(m: LabelMap, d: FunctionDecl, s: Option<Stmt>, f: string)
    ensures var i, j := InfoOf(m, f), InfoOf(Handle(m, d, s), f);
            && j.inlined == i.inlined
            && j.callers == i.callers + (if !d.isMain && IsCall(s, f) then {d.name} else {})
            && (forall name ::
                  (name in j.labels <==> name in i.labels || (f == d.name && exists k :: IsLabel(s, name, k))))
            && (forall name, k :: f == d.name && IsLabel(s, name, k) ==> name in j.labels && j.labels[name] == k)
            && (forall name :: name in i.labels && !(f == d.name && exists k :: IsLabel(s, name, k)) ==>
                  j.labels[name] == i.labels[name])
    ensures forall g <- m :: g in Handle(m, d, s)
    ensures forall g <- Handle(m, d, s) :: g in m || g == d.name || (!d.isMain && IsCall(s, g))
  {
    if s.Some? && s.value.Label? {
      forall k {
        OneTarget(s.value, k);
      }
      assert IsLabel(s, s.value.name, TargetLine(s.value));
    }
  }

  ghost predicate AnyLabel(ss: seq<Option<Stmt>>, name: string, k: nat) {
    exists s <- ss :: IsLabel(s, name, k)
  }

  lemma AnyLabelCons(s: Option<Stmt>, ss: seq<Option<Stmt>>, name: string, k: nat)
    ensures AnyLabel([s] + ss, name, k) <==> IsLabel(s, name, k) || AnyLabel(ss, name, k)
  {
    assert s in [s] + ss;
    assert forall x <- ss :: x in [s] + ss;
  }

  lemma {:induction false} HandleAllCallers(m: LabelMap, d: FunctionDecl, ss: seq<Option<Stmt>>, f: string)
    ensures var i, j := InfoOf(m, f), InfoOf(HandleAll(m, d, ss), f);
            && j.inlined == i.inlined
            && j.callers == i.callers + (if !d.isMain && exists s <- ss :: IsCall(s, f) then {d.name} else {})
    ensures forall g <- m :: g in HandleAll(m, d, ss)
    decreases ss
  {
    if ss != [] {
      HandleOne(m, d, ss[0], f);
      HandleAllCallers(Handle(m, d, ss[0]), d, ss[1..], f);
      assert ss == [ss[0]] + ss[1..];
      assert forall s :: s in ss <==> s == ss[0] || s in ss[1..];
    }
  }

  /** If all labels of one name in `ss` stand for the same line, that line is what is recorded. */
  lemma {:induction false} HandleAllLabels(m: LabelMap, d: FunctionDecl, ss: seq<Option<Stmt>>, f: string, name: string)
    requires forall k, l :: AnyLabel(ss, name, k) && AnyLabel(ss, name, l) ==> k == l
    ensures var i, j := InfoOf(m, f), InfoOf(HandleAll(m, d, ss), f);
            && (forall k :: f == d.name && AnyLabel(ss, name, k) ==> name in j.labels && j.labels[name] == k)
            && ((f != d.name || forall k :: !AnyLabel(ss, name, k)) ==>
                  (name in j.labels <==> name in i.labels) && (name in i.labels ==> j.labels[name] == i.labels[name]))
    decreases ss
  {
    if ss != [] {
      assert ss == [ss[0]] + ss[1..];
      forall k {
        AnyLabelCons(ss[0], ss[1..], name, k);
      }
      HandleOne(m, d, ss[0], f);
      HandleAllLabels(Handle(m, d, ss[0]), d, ss[1..], f, name);
    }
  }

  lemma VisitDeclCallers(m: LabelMap, d: FunctionDecl, f: string)
    ensures var i, j := InfoOf(m, f), InfoOf(VisitDecl(m, d), f);
            && j.inlined == (i.inlined || (Visited(d) && d.alwaysInline && d.name == f))
            && j.callers == i.callers + (if CallsDirectly(d, f) then {d.name} else {})
    ensures forall g <- m :: g in VisitDecl(m, d)
    ensures Visited(d) ==> d.name in VisitDecl(m, d)
  {
    if Visited(d) {
      var known := if d.name in m then m else m[d.name := NO_INFO];
      var marked := if d.alwaysInline then known[d.name := known[d.name].(inlined := true)] else known;
      WalkMembers(d.body.value);
      HandleAllCallers(marked, d, WalkOrder(d.body), f);
    }
  }

  lemma VisitDeclLabels(m: LabelMap, d: FunctionDecl, f: string, name: string)
    requires LabelsAgree([d])
    ensures var i, j := InfoOf(m, f), InfoOf(VisitDecl(m, d), f);
            && (forall k :: f == d.name && HasLabel(d, name, k) ==> name in j.labels && j.labels[name] == k)
            && ((f != d.name || forall k :: !HasLabel(d, name, k)) ==>
                  (name in j.labels <==> name in i.labels) && (name in i.labels ==> j.labels[name] == i.labels[name]))
  {
    if Visited(d) {
      var known := if d.name in m then m else m[d.name := NO_INFO];
      var marked := if d.alwaysInline then known[d.name := known[d.name].(inlined := true)] else known;
      WalkMembers(d.body.value);
      assert d in [d];
      assert forall k :: AnyLabel(WalkOrder(d.body), name, k) <==> HasLabel(d, name, k);
      HandleAllLabels(marked, d, WalkOrder(d.body), f, name);
    }
  }

  lemma {:induction false} VisitDeclsCallers(m: LabelMap, ds: seq<FunctionDecl>, f: string, g: string)
    ensures var i, j := InfoOf(m, f), InfoOf(VisitDecls(m, ds), f);
            && (j.inlined <==> i.inlined || exists d <- ds :: Visited(d) && d.alwaysInline && d.name == f)
            && (g in j.callers <==> g in i.callers || exists d <- ds :: d.name == g && CallsDirectly(d, f))
    decreases ds
  {
    if ds != [] {
      VisitDeclCallers(m, ds[0], f);
      VisitDeclsCallers(VisitDecl(m, ds[0]), ds[1..], f, g);
      assert forall d :: d in ds <==> d == ds[0] || d in ds[1..];
    }
  }

  lemma {:induction false} VisitDeclsLabels(m: LabelMap, ds: seq<FunctionDecl>, f: string, name: string)
    requires LabelsAgree(ds)
    ensures var i, j := InfoOf(m, f), InfoOf(VisitDecls(m, ds), f);
            && (forall d <- ds, k :: d.name == f && HasLabel(d, name, k) ==> name in j.labels && j.labels[name] == k)
            && ((forall d <- ds, k :: d.name == f ==> !HasLabel(d, name, k)) ==>
                  (name in j.labels <==> name in i.labels) && (name in i.labels ==> j.labels[name] == i.labels[name]))
    decreases ds
  {
    if ds != [] {
      assert forall d :: d in ds <==> d == ds[0] || d in ds[1..];
      assert LabelsAgree([ds[0]]) && LabelsAgree(ds[1..]);
      var next := VisitDecl(m, ds[0]);
      VisitDeclLabels(m, ds[0], f, name);
      VisitDeclsLabels(next, ds[1..], f, name);
      var j := InfoOf(VisitDecls(m, ds), f);
      forall k | ds[0].name == f && HasLabel(ds[0], name, k)
        ensures name in j.labels && j.labels[name] == k
      {
        if d, l :| d in ds[1..] && d.name == f && HasLabel(d, name, l) {
          assert l == k;
        }
      }
    }
  }

  /**
   The label map of a translation unit: with unique labels there is one entry per label of a
   visited function, for the line of its first substatement that is no label, and nothing else.
   */
  lemma LabelsExact(ds: seq<FunctionDecl>, f: string, name: string, line: nat)
    requires LabelsAgree(ds)
    ensures var labels := InfoOf(VisitDecls(map[], ds), f).labels;
            (name in labels && labels[name] == line) <==> exists d <- ds :: d.name == f && HasLabel(d, name, line)
  {
    VisitDeclsLabels(map[], ds, f, name);
  }

  /**
   The caller graph of a translation unit: the callers of `f` are exactly the visited functions
   other than main that call it directly, and `f` is inlined exactly when a visited declaration
   of it says so.
   */
  lemma CallersExact(ds: seq<FunctionDecl>, f: string, g: string)
    ensures var info := InfoOf(VisitDecls(map[], ds), f);
            && (g in info.callers <==> exists d <- ds :: d.name == g && CallsDirectly(d, f))
            && (info.inlined <==> exists d <- ds :: Visited(d) && d.alwaysInline && d.name == f)
  {
    VisitDeclsCallers(map[], ds, f, g);
  }

  // ---------- callers are keys ----------

  /** Every recorded caller has an entry of its own. */
  ghost predicate CallersAreKeys(m: LabelMap) {
    forall f <- m, g <- m[f].callers :: g in m
  }

  lemma {:induction false} HandleAllKeepsKeys(m: LabelMap, d: FunctionDecl, ss: seq<Option<Stmt>>)
    requires CallersAreKeys(m) && d.name in m
    ensures CallersAreKeys(HandleAll(m, d, ss)) && d.name in HandleAll(m, d, ss)
    decreases ss
  {
    if ss != [] {
      HandleAllKeepsKeys(Handle(m, d, ss[0]), d, ss[1..]);
    }
  }

  /** No declaration records a caller that is not a key, so that looking callers up later never
      adds an entry. */
  lemma {:induction false} VisitKeepsKeys(m: LabelMap, ds: seq<FunctionDecl>)
    requires CallersAreKeys(m)
    ensures CallersAreKeys(VisitDecls(m, ds))
    decreases ds
  {
    if ds != [] {
      var d := ds[0];
      if Visited(d) {
        var known := if d.name in m then m else m[d.name := NO_INFO];
        var marked := if d.alwaysInline then known[d.name := known[d.name].(inlined := true)] else known;
        HandleAllKeepsKeys(marked, d, WalkOrder(d.body));
      }
      VisitKeepsKeys(VisitDecl(m, d), ds[1..]);
    }
  }
}

/**
 From the callers of an inlined function to the functions that are not inlined
 (ast-pass/GetLabeledStmts.cpp:254-270).
 */
module InlinedCallers {
  import opened Sequences
  import opened Labels
  import opened LabelFacts

  predicate Inlined(m: LabelMap, f: string) {
    InfoOf(m, f).inlined
  }

  predicate CalledBy(m: LabelMap, f: string, caller: string) {
    caller in InfoOf(m, f).callers
  }

  predicate ClimbsTo(m: LabelMap, f: string, caller: string) {
    CalledBy(m, f, caller) && Inlined(m, caller)
  }

  /** From callee to caller, through inlined callers only. */
  ghost predicate Climb(m: LabelMap, p: seq<string>) {
    p != [] && forall i :: 0 <= i < |p| - 1 ==> ClimbsTo(m, p[i], p[i + 1])
  }

  ghost predicate Repeats(p: seq<string>) {
    exists i, j :: 1 <= i < j < |p| && p[i] == p[j]
  }

  /** No inlined function is its own caller through inlined ones, as far as `leaf` can see. */
  ghost predicate NoInlinedCycle(m: LabelMap, leaf: string) {
    forall p :: Climb(m, p) && p[0] == leaf ==> !Repeats(p)
  }

  /** A call path in the order of the calls: from a function that is not inlined down to the
      leaf, with inlined functions only in between. */
  ghost predicate CallPath(m: LabelMap, p: seq<string>, leaf: string) {
    && |p| >= 2 && p[|p| - 1] == leaf && !Inlined(m, p[0])
    && (forall i :: 0 <= i < |p| - 1 ==> CalledBy(m, p[i + 1], p[i]))
    && (forall i :: 0 < i < |p| - 1 ==> Inlined(m, p[i]))
  }

  /** `paths` lists, without repetition, the call paths to the leaf whose last call is made by
      one of `via`; `heads` lists the functions they start from. */
  ghost predicate Lists(m: LabelMap, leaf: string, via: set<string>, paths: seq<seq<string>>, heads: seq<string>) {
    && |paths| == |heads|
    && (forall i :: 0 <= i < |paths| ==> paths[i] != [] && paths[i][0] == heads[i])
    && (forall i, j :: 0 <= i < j < |paths| ==> paths[i] != paths[j])
    && (forall p :: p in paths <==> CallPath(m, p, leaf) && p[|p| - 2] in via)
  }

  lemma ExtendPath(m: LabelMap, p: seq<string>, caller: string, leaf: string)
    requires CalledBy(m, leaf, caller) && Inlined(m, caller) && CallPath(m, p, caller)
    ensures CallPath(m, p + [leaf], leaf)
  {
    var q := p + [leaf];
    forall i | 0 <= i < |q| - 1
      ensures CalledBy(m, q[i + 1], q[i])
    {
      if i < |p| - 1 {
        assert CalledBy(m, p[i + 1], p[i]);
      }
    }
  }

  lemma CutPath(m: LabelMap, p: seq<string>, leaf: string)
    requires CallPath(m, p, leaf)
    ensures |p| == 2 ==> p == [p[0], leaf]
    ensures |p| > 2 ==> CallPath(m, p[..|p| - 1], p[|p| - 2]) && p == p[..|p| - 1] + [leaf]
    ensures Inlined(m, p[|p| - 2]) <==> |p| > 2
    ensures CalledBy(m, leaf, p[|p| - 2])
  {
    if |p| > 2 {
      var q := p[..|p| - 1];
      forall i | 0 <= i < |q| - 1
        ensures CalledBy(m, q[i + 1], q[i])
      {
        assert CalledBy(m, p[i + 1], p[i]);
      }
    }
    assert CalledBy(m, p[|p| - 2 + 1], p[|p| - 2]);
  }

  function Extended(paths: seq<seq<string>>, leaf: string): seq<seq<string>> {
    seq(|paths|, i requires 0 <= i < |paths| => paths[i] + [leaf])
  }

  /** A caller that is not inlined contributes the one path on which it calls the leaf. */
  lemma AddDirect(m: LabelMap, leaf: string, via: set<string>, paths: seq<seq<string>>, heads: seq<string>,
                  caller: string)
    requires Lists(m, leaf, via, paths, heads)
    requires caller !in via && CalledBy(m, leaf, caller) && !Inlined(m, caller)
    ensures Lists(m, leaf, via + {caller}, paths + [[caller, leaf]], heads + [caller])
  {
    var q := [caller, leaf];
    assert CallPath(m, q, leaf);
    forall p | CallPath(m, p, leaf) && p[|p| - 2] == caller
      ensures p == q
    {
      CutPath(m, p, leaf);
    }
    assert Lists(m, leaf, {caller}, [q], [caller]);
    ListsBoth(m, leaf, via, paths, heads, {caller}, [q], [caller]);
  }

  lemma ExtendedDistinct(paths: seq<seq<string>>, leaf: string)
    requires forall i, j :: 0 <= i < j < |paths| ==> paths[i] != paths[j]
    ensures forall i, j :: 0 <= i < j < |paths| ==> Extended(paths, leaf)[i] != Extended(paths, leaf)[j]
  {
    forall i, j | 0 <= i < j < |paths|
      ensures Extended(paths, leaf)[i] != Extended(paths, leaf)[j]
    {
      assert (paths[i] + [leaf])[..|paths[i] + [leaf]| - 1] == paths[i];
      assert (paths[j] + [leaf])[..|paths[j] + [leaf]| - 1] == paths[j];
    }
  }

  /** The paths through an inlined caller are the extended paths to it. */
  lemma ExtendedLists(m: LabelMap, leaf: string, caller: string, more: seq<seq<string>>, moreHeads: seq<string>)
    requires CalledBy(m, leaf, caller) && Inlined(m, caller)
    requires Lists(m, caller, InfoOf(m, caller).callers, more, moreHeads)
    ensures Lists(m, leaf, {caller}, Extended(more, leaf), moreHeads)
  {
    var ext := Extended(more, leaf);
    forall i | 0 <= i < |more|
      ensures CallPath(m, ext[i], leaf) && ext[i][|ext[i]| - 2] == caller && ext[i][0] == moreHeads[i]
    {
      assert more[i] in more;
      ExtendPath(m, more[i], caller, leaf);
    }
    ExtendedDistinct(more, leaf);
    forall p | CallPath(m, p, leaf) && p[|p| - 2] == caller
      ensures p in ext
    {
      ExtendedAll(m, leaf, caller, more, moreHeads, p);
    }
  }

  lemma ExtendedAll(m: LabelMap, leaf: string, caller: string, more: seq<seq<string>>, moreHeads: seq<string>,
                    p: seq<string>)
    requires CalledBy(m, leaf, caller) && Inlined(m, caller)
    requires Lists(m, caller, InfoOf(m, caller).callers, more, moreHeads)
    requires CallPath(m, p, leaf) && p[|p| - 2] == caller
    ensures p in Extended(more, leaf)
  {
    CutPath(m, p, leaf);
    var q := p[..|p| - 1];
    CutPath(m, q, caller);
    assert q in more;
    var i :| 0 <= i < |more| && more[i] == q;
    assert Extended(more, leaf)[i] == p;
  }

  /** Lists of paths through different callers add up. */
  lemma ListsBoth(m: LabelMap, leaf: string, via: set<string>, paths: seq<seq<string>>, heads: seq<string>,
                  also: set<string>, more: seq<seq<string>>, moreHeads: seq<string>)
    requires Lists(m, leaf, via, paths, heads) && Lists(m, leaf, also, more, moreHeads) && via !! also
    ensures Lists(m, leaf, via + also, paths + more, heads + moreHeads)
  {
    DistinctBoth(m, leaf, via, paths, heads, also, more, moreHeads);
    HeadsBoth(paths, heads, more, moreHeads);
    forall p: seq<string>
      ensures p in paths + more <==> CallPath(m, p, leaf) && p[|p| - 2] in via + also
    {
      assert p in paths + more <==> p in paths || p in more;
    }
  }

  lemma HeadsBoth(paths: seq<seq<string>>, heads: seq<string>, more: seq<seq<string>>, moreHeads: seq<string>)
    requires |paths| == |heads| && |more| == |moreHeads|
    requires forall i :: 0 <= i < |paths| ==> paths[i] != [] && paths[i][0] == heads[i]
    requires forall i :: 0 <= i < |more| ==> more[i] != [] && more[i][0] == moreHeads[i]
    ensures forall i :: 0 <= i < |paths + more| ==>
              (paths + more)[i] != [] && (paths + more)[i][0] == (heads + moreHeads)[i]
  {
  }

  lemma DistinctBoth(m: LabelMap, leaf: string, via: set<string>, paths: seq<seq<string>>, heads: seq<string>,
                     also: set<string>, more: seq<seq<string>>, moreHeads: seq<string>)
    requires Lists(m, leaf, via, paths, heads) && Lists(m, leaf, also, more, moreHeads) && via !! also
    ensures forall i, j :: 0 <= i < j < |paths + more| ==> (paths + more)[i] != (paths + more)[j]
  {
    var all := paths + more;
    forall i, j | 0 <= i < j < |all|
      ensures all[i] != all[j]
    {
      if i < |paths| <= j {
        assert paths[i] in paths && more[j - |paths|] in more;
      }
    }
  }

  /** An inlined caller contributes every path to itself, extended by its call of the leaf. */
  lemma AddInlined(m: LabelMap, leaf: string, via: set<string>, paths: seq<seq<string>>, heads: seq<string>,
                   caller: string, more: seq<seq<string>>, moreHeads: seq<string>)
    requires Lists(m, leaf, via, paths, heads)
    requires caller !in via && CalledBy(m, leaf, caller) && Inlined(m, caller)
    requires Lists(m, caller, InfoOf(m, caller).callers, more, moreHeads)
    ensures Lists(m, leaf, via + {caller}, paths + Extended(more, leaf), heads + moreHeads)
  {
    ExtendedLists(m, leaf, caller, more, moreHeads);
    ListsBoth(m, leaf, via, paths, heads, {caller}, Extended(more, leaf), moreHeads);
  }

  /** The inlined functions to which the climb has not come yet. */
  ghost function Unclimbed(m: LabelMap, climb: seq<string>): set<string>
    requires climb != []
  {
    set f | f in m && m[f].inlined && f !in climb[1..]
  }

  lemma RepeatsAgain(climb: seq<string>, f: string)
    requires climb != [] && f in climb[1..]
    ensures Repeats(climb + [f])
  {
    var next := climb + [f];
    var i :| 0 <= i < |climb[1..]| && climb[1..][i] == f;
    assert next[i + 1] == next[|next| - 1];
  }

  lemma ClimbFresh(m: LabelMap, climb: seq<string>, caller: string)
    requires Climb(m, climb) && NoInlinedCycle(m, climb[0])
    requires ClimbsTo(m, climb[|climb| - 1], caller)
    ensures Climb(m, climb + [caller]) && caller !in climb[1..]
  {
    var next := climb + [caller];
    forall i | 0 <= i < |next| - 1
      ensures ClimbsTo(m, next[i], next[i + 1])
    {
      if i < |climb| - 1 {
        assert ClimbsTo(m, climb[i], climb[i + 1]);
      }
    }
    if caller in climb[1..] {
      RepeatsAgain(climb, caller);
    }
  }

  lemma ClimbShrinks(m: LabelMap, climb: seq<string>, caller: string)
    requires Climb(m, climb) && NoInlinedCycle(m, climb[0])
    requires ClimbsTo(m, climb[|climb| - 1], caller)
    ensures Climb(m, climb + [caller])
    ensures Unclimbed(m, climb + [caller]) < Unclimbed(m, climb)
  {
    ClimbFresh(m, climb, caller);
    assert (climb + [caller])[1..] == climb[1..] + [caller];
    assert caller in Unclimbed(m, climb);
  }

  lemma Rest(before: seq<string>, all: seq<string>)
    requires before <= all
    ensures all == before + all[|before|..]
  {
  }

  /**
   The recursive search, appending to the list of callers; the set of callers may be gone
   through in any order. If no inlined cycle is in sight it terminates, and it lists each
   function that is not inlined exactly as many times as there are call paths from it to the
   leaf whose intermediate functions are all inlined.
   */
  method FindAllNoninlinedCallers(m: LabelMap, leaf: string, callers: seq<string>, ghost climb: seq<string>)
    returns (all: seq<string>, ghost paths: seq<seq<string>>)
    requires Climb(m, climb) && climb[|climb| - 1] == leaf && NoInlinedCycle(m, climb[0])
    ensures callers <= all && Lists(m, leaf, InfoOf(m, leaf).callers, paths, all[|callers|..])
    decreases Unclimbed(m, climb)
  {
    all, paths := callers, [];
    ghost var heads: seq<string> := [];
    var left := InfoOf(m, leaf).callers;
    ghost var via := {};
    while left != {}
      invariant via + left == InfoOf(m, leaf).callers && via !! left
      invariant all == callers + heads && Lists(m, leaf, via, paths, heads)
      decreases |left|
    {
      var caller :| caller in left;
      left := left - {caller};
      if !Inlined(m, caller) {
        AddDirect(m, leaf, via, paths, heads, caller);
        all := all + [caller];
        heads, paths := heads + [caller], paths + [[caller, leaf]];
      } else {
        ClimbShrinks(m, climb, caller);
        ghost var before, morePaths := all, [];
        all, morePaths := FindAllNoninlinedCallers(m, caller, all, climb + [caller]);
        ghost var more := all[|before|..];
        Rest(before, all);
        AddInlined(m, leaf, via, paths, heads, caller, morePaths, more);
        Associate(callers, heads, more);
        heads, paths := heads + more, paths + Extended(morePaths, leaf);
      }
      via := via + {caller};
    }
    AfterPrefix(callers, heads);
  }

  /** Looking up a leaf of the map and whatever the search comes to never adds an entry. */
  lemma {:induction false} ClimbStaysInMap(m: LabelMap, p: seq<string>)
    requires CallersAreKeys(m) && Climb(m, p) && p[0] in m
    ensures forall f <- p :: f in m && forall c <- InfoOf(m, f).callers :: c in m
    decreases |p|
  {
    if |p| > 1 {
      assert ClimbsTo(m, p[0], p[1]);
      ClimbPart(m, p, 1, |p|);
      assert p[1..|p|] == p[1..] && p == [p[0]] + p[1..];
      ClimbStaysInMap(m, p[1..]);
    }
  }

  // ---------- when the search ends ----------

  /** The recursion comes to an end within `depth` levels. */
  ghost predicate Ends(m: LabelMap, leaf: string, depth: nat)
    decreases depth
  {
    forall c <- InfoOf(m, leaf).callers :: Inlined(m, c) ==> depth > 0 && Ends(m, c, depth - 1)
  }

  lemma {:induction false} EndsAlong(m: LabelMap, p: seq<string>, depth: nat)
    requires Climb(m, p) && Ends(m, p[0], depth)
    ensures |p| - 1 <= depth && Ends(m, p[|p| - 1], depth - (|p| - 1))
    decreases |p|
  {
    if |p| > 1 {
      assert ClimbsTo(m, p[0], p[1]);
      var q := p[1..];
      forall i | 0 <= i < |q| - 1
        ensures ClimbsTo(m, q[i], q[i + 1])
      {
        assert ClimbsTo(m, p[i + 1], p[i + 2]);
      }
      EndsAlong(m, q, depth - 1);
    }
  }

  /** Going round a cycle the depth would have to fall below every bound. */
  lemma {:induction false} CycleNeverEnds(m: LabelMap, cycle: seq<string>, depth: nat)
    requires Climb(m, cycle) && |cycle| >= 2 && cycle[0] == cycle[|cycle| - 1]
    ensures !Ends(m, cycle[0], depth)
    decreases depth
  {
    if Ends(m, cycle[0], depth) {
      EndsAlong(m, cycle, depth);
      CycleNeverEnds(m, cycle, depth - (|cycle| - 1));
    }
  }

  lemma ClimbPart(m: LabelMap, p: seq<string>, i: nat, j: nat)
    requires Climb(m, p) && i < j <= |p|
    ensures Climb(m, p[i..j])
  {
    var q := p[i..j];
    forall k | 0 <= k < |q| - 1
      ensures ClimbsTo(m, q[k], q[k + 1])
    {
      assert ClimbsTo(m, p[i + k], p[i + k + 1]);
    }
  }

  lemma {:induction false} EndsFrom(m: LabelMap, climb: seq<string>, bound: nat)
    requires Climb(m, climb) && NoInlinedCycle(m, climb[0])
    requires bound == |Unclimbed(m, climb)|
    ensures Ends(m, climb[|climb| - 1], bound)
    decreases bound
  {
    var leaf := climb[|climb| - 1];
    forall c | c in InfoOf(m, leaf).callers && Inlined(m, c)
      ensures bound > 0 && Ends(m, c, bound - 1)
    {
      ClimbFresh(m, climb, c);
      var next := climb + [c];
      assert next[1..] == climb[1..] + [c];
      var before, after := Unclimbed(m, climb), Unclimbed(m, next);
      assert before == after + {c} && c !in after;
      EndsFrom(m, next, |after|);
    }
  }

  lemma RepeatNeverEnds(m: LabelMap, p: seq<string>, depth: nat)
    requires Climb(m, p) && Ends(m, p[0], depth)
    ensures !Repeats(p)
  {
    if i: nat, j: nat :| 1 <= i < j < |p| && p[i] == p[j] {
      var start, cycle := p[0..i + 1], p[i..j + 1];
      ClimbPart(m, p, 0, i + 1);
      ClimbPart(m, p, i, j + 1);
      EndsAlong(m, start, depth);
      assert start[|start| - 1] == cycle[0] == cycle[|cycle| - 1];
      CycleNeverEnds(m, cycle, depth - i);
    }
  }

  /** The search from `leaf` ends if and only if no inlined function that it can come to is its
      own caller through inlined ones. */
  lemma EndsIffNoCycle(m: LabelMap, leaf: string)
    ensures (exists depth: nat :: Ends(m, leaf, depth)) <==> NoInlinedCycle(m, leaf)
  {
    if NoInlinedCycle(m, leaf) {
      EndsFrom(m, [leaf], |Unclimbed(m, [leaf])|);
      assert Ends(m, leaf, |Unclimbed(m, [leaf])|);
    }
    if depth: nat :| Ends(m, leaf, depth) {
      forall p | Climb(m, p) && p[0] == leaf
        ensures !Repeats(p)
      {
        RepeatNeverEnds(m, p, depth);
      }
    }
  }
}
