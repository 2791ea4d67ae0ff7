/**
 The label extractor (ast-pass/GetLabeledStmts.cpp): what handling a statement does to the
 label map, and the class that walks function bodies with an explicit stack inside a recursion.
 */
module Labels {
  import opened Wrappers
  import opened Sequences

  /** A statement with the line it starts on. A label has one child, its substatement; the
      other children may be null. `callee` is None for a call that is not direct. */
  datatype Stmt =
    | Label(line: nat, name: string, sub: Stmt)
    | Call(line: nat, callee: Option<string>, children: seq<Option<Stmt>>)
    | Plain(line: nat, children: seq<Option<Stmt>>)

  function Children(s: Stmt): (cs: seq<Option<Stmt>>)
    ensures forall c <- cs :: c.Some? ==> c.value < s
  {
    match s
    case Label(_, _, sub) => [Some(sub)]
    case Call(_, _, children) => children
    case Plain(_, children) => children
  }

  datatype FunctionInfo = FunctionInfo(labels: map<string, nat>, callers: set<string>, inlined: bool)

  const NO_INFO := FunctionInfo(map[], {}, false)

  type LabelMap = map<string, FunctionInfo>

  /** What operator[] of the map gives: a missing entry appears, empty. */
  function InfoOf(m: LabelMap, f: string): FunctionInfo {
    if f in m then m[f] else NO_INFO
  }

  datatype FunctionDecl = FunctionDecl(name: string, isMethod: bool, isMain: bool, alwaysInline: bool,
                                       body: Option<Stmt>)

  function FirstUnlabeled(s: Stmt): Stmt {
    if s.Label? then FirstUnlabeled(s.sub) else s
  }

  /** The line a label stands for: that of its first substatement that is no label. */
  function TargetLine(s: Stmt): nat
    requires s.Label?
  {
    FirstUnlabeled(s.sub).line
  }

  /** The statements that a label leads to: from its substatement along substatements to the first that
      is no label. */
  ghost predicate LeadsTo(s: Stmt, chain: seq<Stmt>) {
    && s.Label? && chain != [] && chain[0] == s.sub && !chain[|chain| - 1].Label?
    && forall i :: 0 <= i < |chain| - 1 ==> chain[i].Label? && chain[i + 1] == chain[i].sub
  }

  /** The label stands for the line on which the last of these statements starts. */
  ghost predicate StandsFor(s: Stmt, line: nat) {
    exists chain: seq<Stmt> :: LeadsTo(s, chain) && chain[|chain| - 1].line == line
  }

  lemma {:induction false} ChainToTarget(s: Stmt) returns (chain: seq<Stmt>)
    requires s.Label?
    ensures LeadsTo(s, chain) && chain[|chain| - 1].line == TargetLine(s)
  {
    if s.sub.Label? {
      var rest := ChainToTarget(s.sub);
      chain := [s.sub] + rest;
    } else {
      chain := [s.sub];
    }
  }

  lemma {:induction false} ChainEndsThere(s: Stmt, chain: seq<Stmt>)
    requires LeadsTo(s, chain)
    ensures chain[|chain| - 1].line == TargetLine(s)
    decreases |chain|
  {
    if |chain| > 1 {
      assert LeadsTo(s.sub, chain[1..]);
      ChainEndsThere(s.sub, chain[1..]);
    }
  }

  /** Every label stands for exactly one line. */
  lemma OneTarget(s: Stmt, line: nat)
    requires s.Label?
    ensures StandsFor(s, line) <==> line == TargetLine(s)
  {
    var chain := ChainToTarget(s);
    if StandsFor(s, line) {
      var other: seq<Stmt> :| LeadsTo(s, other) && other[|other| - 1].line == line;
      ChainEndsThere(s, other);
    }
  }

  function HandleLabel(m: LabelMap, d: FunctionDecl, s: Option<Stmt>): LabelMap {
    if s.None? || !s.value.Label? then m
    else
      var info := InfoOf(m, d.name);
      m[d.name := info.(labels := info.labels[s.value.name := TargetLine(s.value)])]
  }

  function HandleCall(m: LabelMap, d: FunctionDecl, s: Option<Stmt>): LabelMap {
    if s.None? || d.isMain || !s.value.Call? || s.value.callee.None? then m
    else
      var info := InfoOf(m, s.value.callee.value);
      m[s.value.callee.value := info.(callers := info.callers + {d.name})]
  }

  function Handle(m: LabelMap, d: FunctionDecl, s: Option<Stmt>): LabelMap {
    HandleCall(HandleLabel(m, d, s), d, s)
  }

  function HandleAll(m: LabelMap, d: FunctionDecl, ss: seq<Option<Stmt>>): LabelMap
    decreases ss
  {
    if ss == [] then m else HandleAll(Handle(m, d, ss[0]), d, ss[1..])
  }

  lemma {:induction false} HandleAllAppend(m: LabelMap, d: FunctionDecl, a: seq<Option<Stmt>>, b: seq<Option<Stmt>>)
    ensures HandleAll(m, d, a + b) == HandleAll(HandleAll(m, d, a), d, b)
    decreases a
  {
    if a == [] {
      assert a + b == b;
    } else {
      assert (a + b)[1..] == a[1..] + b;
      HandleAllAppend(Handle(m, d, a[0]), d, a[1..], b);
    }
  }

  /** The order in which the walk handles statements: the children first, then what is below
      them, from the last child to the first, since they are popped from a stack. */
  function WalkOrder(s: Option<Stmt>): seq<Option<Stmt>>
    decreases s
  {
    if s.None? then [] else Children(s.value) + WalkBelow(s.value, Children(s.value))
  }

  function WalkBelow(s: Stmt, stack: seq<Option<Stmt>>): seq<Option<Stmt>>
    requires forall c <- stack :: c.Some? ==> c.value < s
    decreases s, |stack|
  {
    if stack == [] then []
    else
      var top := stack[|stack| - 1];
      assert top in stack;
      (if top.None? then [] else Children(top.value) + WalkBelow(top.value, Children(top.value)))
      + WalkBelow(s, stack[..|stack| - 1])
  }

  /** All proper descendants in document order. */
  function Descendants(s: Stmt): seq<Option<Stmt>>
    decreases s, |Children(s)| + 1
  {
    DescendantsOf(s, Children(s))
  }

  function DescendantsOf(s: Stmt, children: seq<Option<Stmt>>): seq<Option<Stmt>>
    requires forall c <- children :: c.Some? ==> c.value < s
    decreases s, |children|
  {
    if children == [] then []
    else
      assert children[0] in children;
      [children[0]] + (if children[0].None? then [] else Descendants(children[0].value))
      + DescendantsOf(s, children[1..])
  }

  function Below(c: Option<Stmt>): seq<Option<Stmt>> {
    if c.None? then [] else Descendants(c.value)
  }

  lemma {:induction false} DescendantsSnoc(s: Stmt, children: seq<Option<Stmt>>, c: Option<Stmt>)
    requires forall x <- children + [c] :: x.Some? ==> x.value < s
    ensures forall x <- children :: x.Some? ==> x.value < s
    ensures DescendantsOf(s, children + [c]) == DescendantsOf(s, children) + ([c] + Below(c))
    decreases children
  {
    assert forall x <- children :: x in children + [c];
    if children == [] {
      assert [] + [c] == [c] && [c][1..] == [];
    } else {
      assert (children + [c])[1..] == children[1..] + [c];
      assert forall x <- children[1..] + [c] :: x in children + [c];
      DescendantsSnoc(s, children[1..], c);
      Associate([children[0]] + Below(children[0]), DescendantsOf(s, children[1..]), [c] + Below(c));
    }
  }

  /** The walk handles every proper descendant, null children included, exactly once. */
  lemma {:induction false} WalkBelowOnce(s: Stmt, stack: seq<Option<Stmt>>)
    requires forall c <- stack :: c.Some? ==> c.value < s
    ensures multiset(stack + WalkBelow(s, stack)) == multiset(DescendantsOf(s, stack))
    decreases s, |stack|
  {
    if stack != [] {
      var top, rest := stack[|stack| - 1], stack[..|stack| - 1];
      assert stack == rest + [top];
      assert top in stack;
      DescendantsSnoc(s, rest, top);
      WalkBelowOnce(s, rest);
      if top.Some? {
        WalkBelowOnce(top.value, Children(top.value));
      }
    }
  }

  lemma WalkOnce(s: Stmt)
    ensures multiset(WalkOrder(Some(s))) == multiset(Descendants(s))
  {
    WalkBelowOnce(s, Children(s));
  }

  /** What visiting a declaration does: methods of classes and bodiless functions are skipped. */
  function VisitDecl(m: LabelMap, d: FunctionDecl): LabelMap {
    if d.isMethod || d.body.None? then m
    else
      var known := if d.name in m then m else m[d.name := NO_INFO];
      var marked := if d.alwaysInline then known[d.name := known[d.name].(inlined := true)] else known;
      HandleAll(marked, d, WalkOrder(d.body))
  }

  function VisitDecls(m: LabelMap, ds: seq<FunctionDecl>): LabelMap
    decreases ds
  {
    if ds == [] then m else VisitDecls(VisitDecl(m, ds[0]), ds[1..])
  }

  // ---------- what is inside a statement ----------

  predicate DirectlyIn(s: Stmt, c: Option<Stmt>) {
    match s
    case Label(_, _, sub) => c == Some(sub)
    case Call(_, _, children) => c in children
    case Plain(_, children) => c in children
  }

  /** From a statement down to one that directly holds the child. */
  ghost predicate Down(s: Stmt, path: seq<Stmt>, c: Option<Stmt>) {
    && path != [] && path[0] == s && DirectlyIn(path[|path| - 1], c)
    && forall i :: 0 <= i < |path| - 1 ==> DirectlyIn(path[i], Some(path[i + 1]))
  }

  ghost predicate Inside(s: Stmt, c: Option<Stmt>) {
    exists path :: Down(s, path, c)
  }

  lemma ChildrenAre(s: Stmt)
    ensures forall c :: c in Children(s) <==> DirectlyIn(s, c)
  {
  }

  lemma {:induction false} ListedBelow(s: Stmt, children: seq<Option<Stmt>>, c: Option<Stmt>)
    requires forall x <- children :: x.Some? ==> x.value < s
    ensures c in DescendantsOf(s, children)
            <==> exists x <- children :: x == c || (x.Some? && c in Descendants(x.value))
    decreases children
  {
    if children != [] {
      assert forall x :: x in children <==> x == children[0] || x in children[1..];
      ListedBelow(s, children[1..], c);
    }
  }

  lemma {:induction false} PathListed(s: Stmt, path: seq<Stmt>, c: Option<Stmt>)
    requires Down(s, path, c)
    ensures c in Descendants(s)
    decreases |path|
  {
    ChildrenAre(s);
    ListedBelow(s, Children(s), c);
    if |path| == 1 {
      assert c in Children(s);
    } else {
      assert Some(path[1]) in Children(s);
      assert Down(path[1], path[1..], c);
      PathListed(path[1], path[1..], c);
    }
  }

  lemma {:induction false} ListedPath(s: Stmt, c: Option<Stmt>) returns (path: seq<Stmt>)
    requires c in Descendants(s)
    ensures Down(s, path, c)
    decreases s
  {
    ChildrenAre(s);
    ListedBelow(s, Children(s), c);
    var x :| x in Children(s) && (x == c || (x.Some? && c in Descendants(x.value)));
    if x == c {
      path := [s];
    } else {
      var rest := ListedPath(x.value, c);
      path := [s] + rest;
    }
  }

  /** The walk handles exactly what is inside a statement, at any depth. */
  lemma WalkInside(s: Stmt, c: Option<Stmt>)
    ensures c in WalkOrder(Some(s)) <==> Inside(s, c)
  {
    WalkOnce(s);
    assert c in WalkOrder(Some(s)) <==> c in multiset(WalkOrder(Some(s)));
    assert c in Descendants(s) <==> c in multiset(Descendants(s));
    if c in Descendants(s) {
      var path := ListedPath(s, c);
    }
    if Inside(s, c) {
      var path :| Down(s, path, c);
      PathListed(s, path, c);
    }
  }

  // ---------- the class ----------

  class Extractor {
    var labelMap: LabelMap

    constructor ()
      ensures labelMap == map[]
    {
      labelMap := map[];
    }

    method HandleIfLabelStmt(s: Option<Stmt>, d: FunctionDecl)
      modifies this
      ensures labelMap == HandleLabel(old(labelMap), d, s)
      ensures s.Some? && s.value.Label? ==>
                && d.name in labelMap && s.value.name in labelMap[d.name].labels
                && StandsFor(s.value, labelMap[d.name].labels[s.value.name])
    {
      if s.None? {
        return;
      }
      if s.value.Label? {
        OneTarget(s.value, TargetLine(s.value));
        var sub := s.value.sub;
        while sub.Label?
          invariant FirstUnlabeled(sub) == FirstUnlabeled(s.value.sub)
          decreases sub
        {
          sub := sub.sub;
        }
        var info := InfoOf(labelMap, d.name);
        labelMap := labelMap[d.name := info.(labels := info.labels[s.value.name := sub.line])];
      }
    }

    method HandleIfCallExpr(s: Option<Stmt>, d: FunctionDecl)
      modifies this
      ensures labelMap == HandleCall(old(labelMap), d, s)
    {
      if s.None? || d.isMain {
        return;
      }
      if s.value.Call? {
        if s.value.callee.Some? {
          var callee := s.value.callee.value;
          var info := InfoOf(labelMap, callee);
          labelMap := labelMap[callee := info.(callers := info.callers + {d.name})];
        }
      }
    }

    /** Pushes the children and handles each of them. */
    method PushChildren(children: seq<Option<Stmt>>, d: FunctionDecl) returns (stack: seq<Option<Stmt>>)
      modifies this
      ensures stack == children && labelMap == HandleAll(old(labelMap), d, children)
    {
      stack := [];
      for i := 0 to |children|
        invariant stack == children[..i]
        invariant HandleAll(labelMap, d, children[i..]) == HandleAll(old(labelMap), d, children)
      {
        assert children[i..][1..] == children[i + 1..];
        stack := stack + [children[i]];
        HandleIfLabelStmt(children[i], d);
        HandleIfCallExpr(children[i], d);
      }
    }

    /** The null test that the source makes on entry stands here where the walk recurses. */
    method VisitAllChildStmtsOf(s: Stmt, d: FunctionDecl)
      modifies this
      ensures labelMap == HandleAll(old(labelMap), d, WalkOrder(Some(s)))
      decreases s
    {
      HandleAllAppend(labelMap, d, Children(s), WalkBelow(s, Children(s)));
      ghost var final := HandleAll(labelMap, d, WalkOrder(Some(s)));
      var stack := PushChildren(Children(s), d);
      while stack != []
        invariant forall c <- stack :: c.Some? ==> c.value < s
        invariant HandleAll(labelMap, d, WalkBelow(s, stack)) == final
        decreases |stack|
      {
        var next := stack[|stack| - 1];
        assert next in stack;
        HandleAllAppend(labelMap, d, WalkOrder(next), WalkBelow(s, stack[..|stack| - 1]));
        if next.Some? {
          VisitAllChildStmtsOf(next.value, d);
        }
        stack := stack[..|stack| - 1];
      }
    }

    method VisitFunctionDecl(d: FunctionDecl)
      modifies this
      ensures labelMap == VisitDecl(old(labelMap), d)
    {
      if d.isMethod {
        return;
      }
      if d.body.Some? {
        if d.name !in labelMap {
          labelMap := labelMap[d.name := NO_INFO];
        }
        if d.alwaysInline {
          labelMap := labelMap[d.name := labelMap[d.name].(inlined := true)];
        }
        VisitAllChildStmtsOf(d.body.value, d);
      }
    }

    method HandleTranslationUnit(ds: seq<FunctionDecl>)
      modifies this
      ensures labelMap == VisitDecls(old(labelMap), ds)
    {
      for i := 0 to |ds|
        invariant VisitDecls(labelMap, ds[i..]) == VisitDecls(old(labelMap), ds)
      {
        assert ds[i..][1..] == ds[i + 1..];
        VisitFunctionDecl(ds[i]);
      }
    }
  }
}
