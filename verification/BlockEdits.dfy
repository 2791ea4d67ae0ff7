/**
 How the edits of the pass add up: instructions to blocks, blocks to a function.
 */
module BlockEdits {
  import opened Wrappers
  import opened Sequences
  import opened StaticIds
  import opened Ir
  import opened Annotations
  import opened Pass
  import opened Preservation
  import opened Edits

  ghost predicate Registered(buffers: seq<Type>, table: map<BufferKey, Type>) {
    && (forall key: BufferKey :: key in table <==> HasKey(buffers, key))
    && (forall key <- table :: table[key] in buffers && table[key].VecT? && KeyOf(table[key]) == key)
  }

  lemma RegisterBuffer(buffers: seq<Type>, table: map<BufferKey, Type>, t: Type)
    requires t.VecT? && KeyOf(t) !in table && Registered(buffers, table) && OnePerKey(buffers)
    ensures Registered(buffers + [t], table[KeyOf(t) := t]) && OnePerKey(buffers + [t])
    ensures AddBuffer(buffers, t) == buffers + [t]
  {
    var more, table' := buffers + [t], table[KeyOf(t) := t];
    forall key: BufferKey
      ensures key in table' <==> HasKey(more, key)
    {
      assert t in more && forall u <- buffers :: u in more;
      assert HasKey(more, key) ==> key == KeyOf(t) || HasKey(buffers, key);
      if HasKey(buffers, key) {
        HasKeyGrows(buffers, more, key);
      }
    }
    assert !HasKey(buffers, KeyOf(t));
    forall i, j | 0 <= i < j < |more|
      ensures KeyOf(more[i]) != KeyOf(more[j])
    {
      assert more[i] in buffers;
    }
  }

  // ---------- loops over lines ----------

  /** Of the lines `all`, `done` are in place and `left` remain. */
  ghost predicate Printing(s0: Shape, s: Shape, b: nat, rem: nat, done: seq<Line>, left: seq<Line>, all: seq<Line>) {
    At(s0, b, rem) && s == PutLines(s0, b, rem, done) && done + left == all
  }

  lemma PrintNothing(s: Shape, b: nat, rem: nat, all: seq<Line>)
    requires At(s, b, rem)
    ensures Printing(s, s, b, rem, [], all, all)
  {
    PutLinesNone(s, b, rem);
  }

  lemma PrintMore(s0: Shape, s: Shape, b: nat, rem: nat, done: seq<Line>, lines: seq<Line>, left: seq<Line>,
                  all: seq<Line>)
    requires Printing(s0, s, b, rem, done, lines + left, all)
    ensures At(s, b, rem) && Printing(s0, PutLines(s, b, rem, lines), b, rem, done + lines, left, all)
  {
    PutLinesTwice(s0, b, rem, done, lines);
    Associate(done, lines, left);
  }

  lemma PrintedAll(s0: Shape, s: Shape, b: nat, rem: nat, done: seq<Line>, all: seq<Line>)
    requires Printing(s0, s, b, rem, done, [], all)
    ensures s == PutLines(s0, b, rem, all)
  {
    assert done + [] == done;
  }

  // ---------- one instruction, one block ----------

  /** The edit for one annotated instruction: `rem` counts the instruction itself. */
  ghost function PutInst(s: Shape, b: nat, rem: nat, f: Func, a: Annotated): Shape
    requires At(s, b, rem) && rem > 0
  {
    PutLines(Put(PutLines(s, b, rem, a.before), b, rem, BeforeReturn(f, a)), b, rem - 1, a.after)
  }

  /** An instruction without lines is left alone. */
  lemma PutNothing(f: Func, s: Shape, b: nat, rem: nat, i: Inst)
    requires At(s, b, rem) && rem > 0
    ensures PutLines(PutLines(s, b, rem, []), b, rem - 1, []) == s && Put(s, b, rem, []) == s
  {
    PutLinesNone(s, b, rem);
    PutLinesNone(s, b, rem - 1);
    PutNone(s, b, rem);
  }

  lemma SpliceInst(front: seq<Node>, i: Inst, rest: seq<Node>, before: seq<Code>, ret: seq<Code>, after: seq<Code>)
    ensures var nodes := front + ([Original(i)] + rest);
            var rem := 1 + |rest|;
            Splice(Splice(Splice(nodes, rem, before), rem, ret), rem - 1, after)
            == front + (Nodes(before + ret) + [Original(i)] + Nodes(after)) + rest
  {
    var own, rem := [Original(i)], 1 + |rest|;
    var nodes := front + (own + rest);
    SpliceTwice(nodes, rem, before, ret);
    assert nodes[..|nodes| - rem] == front && nodes[|nodes| - rem..] == own + rest;
    var more := front + (Nodes(before + ret) + (own + rest));
    assert Splice(nodes, rem, before + ret) == more;
    assert more[..|more| - |rest|] == front + (Nodes(before + ret) + own);
    assert more[|more| - |rest|..] == rest;
    SpliceEnd(front, Nodes(before + ret) + own, Nodes(after), rest);
  }

  lemma SpliceEnd(front: seq<Node>, own: seq<Node>, after: seq<Node>, rest: seq<Node>)
    ensures front + own + (after + rest) == front + (own + after) + rest
  {
  }

  /** What is left to do in a block: `front` is done, `rest` is still untouched. */
  ghost predicate Doing(f: Func, bbid: string, env: Env, s: Shape, b: nat, front: seq<Node>, rest: seq<Inst>,
                        goal: seq<Node>, goalBuffers: seq<Type>, goalNames: map<int, string>) {
    var (anns, last) := AnnotateAll(f.name, bbid, env, rest);
    && b < |s.bodies| && s.bodies[b] == front + Untouched(rest)
    && front + BlockNodes(f, anns) == goal
    && AddBuffers(s.buffers, BlockLines(anns)) == goalBuffers
    && last.varNames == goalNames
  }

  lemma AnnotateAllStep(func: string, bbid: string, env: Env, insts: seq<Inst>)
    requires insts != []
    ensures var (a, next) := Annotate(func, bbid, env, insts[0], insts[1..]);
            var (rest, last) := AnnotateAll(func, bbid, next, insts[1..]);
            AnnotateAll(func, bbid, env, insts) == ([a] + rest, last)
  {
  }

  lemma PutInstBody(f: Func, s: Shape, b: nat, front: seq<Node>, rest: seq<Inst>, a: Annotated)
    requires b < |s.bodies| && rest != [] && a.inst == rest[0] && s.bodies[b] == front + Untouched(rest)
    ensures var r := PutInst(s, b, |rest|, f, a);
            && r.bodies == s.bodies[b := front + InstNodes(f, a) + Untouched(rest[1..])]
            && r.buffers == AddBuffers(s.buffers, a.before + a.after)
  {
    assert Untouched(rest) == [Original(rest[0])] + Untouched(rest[1..]);
    SpliceInst(front, rest[0], Untouched(rest[1..]), Codes(a.before), BeforeReturn(f, a), Codes(a.after));
    AddBuffersAppend(s.buffers, a.before, a.after);
  }

  lemma DoOne(f: Func, bbid: string, env: Env, s: Shape, b: nat, front: seq<Node>, rest: seq<Inst>, goal: seq<Node>,
              goalBuffers: seq<Type>, goalNames: map<int, string>)
    requires Doing(f, bbid, env, s, b, front, rest, goal, goalBuffers, goalNames) && rest != []
    ensures At(s, b, |rest|)
    ensures var (a, next) := Annotate(f.name, bbid, env, rest[0], rest[1..]);
            var r := PutInst(s, b, |rest|, f, a);
            && Doing(f, bbid, next, r, b, front + InstNodes(f, a), rest[1..], goal, goalBuffers, goalNames)
            && r.bodies == s.bodies[b := r.bodies[b]]
  {
    var (a, next) := Annotate(f.name, bbid, env, rest[0], rest[1..]);
    var (more, last) := AnnotateAll(f.name, bbid, next, rest[1..]);
    AnnotateAllStep(f.name, bbid, env, rest);
    PutInstBody(f, s, b, front, rest, a);
    assert ([a] + more)[1..] == more;
    Associate(front, InstNodes(f, a), BlockNodes(f, more));
    AddBuffersAppend(s.buffers, a.before + a.after, BlockLines(more));
  }

  lemma BareFirst(f: Func, insts: seq<Inst>)
    requires insts != []
    ensures Bare(insts)[0] == Annotated([], insts[0], [], None) && Bare(insts)[1..] == Bare(insts[1..])
    ensures InstNodes(f, Bare(insts)[0]) == [Original(insts[0])]
    ensures Untouched(insts) == [Original(insts[0])] + Untouched(insts[1..])
  {
  }

  lemma {:induction false} BareNodes(f: Func, insts: seq<Inst>)
    ensures BlockNodes(f, Bare(insts)) == Untouched(insts) && BlockLines(Bare(insts)) == []
    decreases insts
  {
    if insts != [] {
      BareFirst(f, insts);
      BareNodes(f, insts[1..]);
    }
  }

  /** Instructions without lines of their own, none of them a return. */
  ghost predicate Quiet(anns: seq<Annotated>) {
    forall a <- anns :: a.before == [] && a.after == [] && !a.inst.kind.Ret?
  }

  lemma QuietInst(f: Func, a: Annotated)
    requires a.before == [] && a.after == [] && !a.inst.kind.Ret?
    ensures InstNodes(f, a) == [Original(a.inst)]
  {
  }

  lemma {:induction false} QuietNodes(f: Func, quiet: seq<Annotated>)
    requires Quiet(quiet)
    ensures BlockNodes(f, quiet) == Untouched(InstsOf(quiet)) && BlockLines(quiet) == []
    decreases quiet
  {
    if quiet != [] {
      assert quiet[0] in quiet;
      QuietInst(f, quiet[0]);
      QuietNodes(f, quiet[1..]);
      assert Untouched(InstsOf(quiet)) == [Original(quiet[0].inst)] + Untouched(InstsOf(quiet[1..]));
    }
  }

  lemma {:induction false} BlockLinesAppend(a: seq<Annotated>, b: seq<Annotated>)
    ensures BlockLines(a + b) == BlockLines(a) + BlockLines(b)
    decreases a
  {
    if a == [] {
      assert a + b == b;
    } else {
      assert (a + b)[1..] == a[1..] + b;
      BlockLinesAppend(a[1..], b);
      Associate(a[0].before + a[0].after, BlockLines(a[1..]), BlockLines(b));
    }
  }

  /** They are left where they are. */
  lemma QuietThen(f: Func, quiet: seq<Annotated>, anns: seq<Annotated>)
    requires Quiet(quiet)
    ensures BlockNodes(f, quiet + anns) == Untouched(InstsOf(quiet)) + BlockNodes(f, anns)
    ensures BlockLines(quiet + anns) == BlockLines(anns)
  {
    QuietNodes(f, quiet);
    BlockNodesAppend(f, quiet, anns);
    BlockLinesAppend(quiet, anns);
    assert [] + BlockLines(anns) == BlockLines(anns);
  }

  lemma LinesInFront(f: Func, lines: seq<Line>, anns: seq<Annotated>)
    requires anns != []
    ensures BlockNodes(f, WithLines(lines, anns)) == Nodes(Codes(lines)) + BlockNodes(f, anns)
    ensures BlockLines(WithLines(lines, anns)) == lines + BlockLines(anns)
  {
    var a := anns[0].(before := lines + anns[0].before);
    assert WithLines(lines, anns)[0] == a && WithLines(lines, anns)[1..] == anns[1..];
    CodesAppend(lines, anns[0].before);
    assert BeforeReturn(f, a) == BeforeReturn(f, anns[0]);
    LinesInFrontOfInst(f, lines, anns[0]);
    Associate(Nodes(Codes(lines)), InstNodes(f, anns[0]), BlockNodes(f, anns[1..]));
    FourLines(lines, anns[0].before, anns[0].after, BlockLines(anns[1..]));
  }

  lemma FourLines(a: seq<Line>, b: seq<Line>, c: seq<Line>, d: seq<Line>)
    ensures a + b + c + d == a + (b + c + d)
  {
  }

  lemma LinesInFrontOfInst(f: Func, lines: seq<Line>, a: Annotated)
    ensures InstNodes(f, a.(before := lines + a.before)) == Nodes(Codes(lines)) + InstNodes(f, a)
  {
    CodesAppend(lines, a.before);
    Associate(Codes(lines), Codes(a.before), BeforeReturn(f, a));
    NodesAppend(Codes(lines), Codes(a.before) + BeforeReturn(f, a));
    var x, y := Nodes(Codes(lines)), Nodes(Codes(a.before) + BeforeReturn(f, a));
    var own, after := [Original(a.inst)], Nodes(Codes(a.after));
    Associate(x, y, own);
    Associate(x, y + own, after);
  }

  /** What the pass makes of a block, and the names it knows afterwards. */
  function Plan(f: Func, varNames: map<int, string>, b: Block): (seq<Annotated>, map<int, string>) {
    if f.skipBody then (Bare(b.insts), varNames) else AnnotateBlock(f.name, varNames, b)
  }

  /** The part of a block that the phis are done for, and their lines. */
  function PhiFront(f: Func, varNames: map<int, string>, bl: Block): seq<Node> {
    var phis := bl.insts[..PhiCount(bl.insts)];
    Untouched(phis) + Nodes(Codes(AllPhiLines(f.name, BlockId(bl.ref), Env(varNames, 0), phis)))
  }

  /** The lines of all phis of a block in front of its first other instruction. */
  ghost function PutPhis(f: Func, bbid: string, varNames: map<int, string>, s: Shape, b: nat, insts: seq<Inst>): Shape
    requires At(s, b, |insts| - PhiCount(insts))
  {
    PutLines(s, b, |insts| - PhiCount(insts), AllPhiLines(f.name, bbid, Env(varNames, 0), insts[..PhiCount(insts)]))
  }

  function PhiEnv(bbid: string, varNames: map<int, string>, insts: seq<Inst>): Env {
    AfterPhis(bbid, Env(varNames, 0), insts[..PhiCount(insts)])
  }

  /** A block with its phis done, and the rest to do. */
  ghost predicate PhisDone(f: Func, varNames: map<int, string>, s: Shape, buffers: seq<Type>, bl: Block, b: nat,
                           env: Env) {
    var (anns, names) := Plan(f, varNames, bl);
    Doing(f, BlockId(bl.ref), env, s, b, PhiFront(f, varNames, bl), bl.insts[PhiCount(bl.insts)..],
          BlockNodes(f, anns), AddBuffers(buffers, BlockLines(anns)), names)
  }

  /** Once the lines of the phis are in place, the rest of the block remains to be done. */
  lemma StartBlock(f: Func, varNames: map<int, string>, s: Shape, bl: Block, b: nat, r: Shape, env': Env)
    requires b < |s.bodies| && s.bodies[b] == Untouched(bl.insts) && !f.skipBody
    requires PhiCount(bl.insts) < |bl.insts|
    requires env' == PhiEnv(BlockId(bl.ref), varNames, bl.insts)
    requires At(s, b, |bl.insts| - PhiCount(bl.insts)) && r == PutPhis(f, BlockId(bl.ref), varNames, s, b, bl.insts)
    ensures PhisDone(f, varNames, r, s.buffers, bl, b, env') && r.bodies == s.bodies[b := r.bodies[b]]
  {
    var bbid, n, insts := BlockId(bl.ref), PhiCount(bl.insts), bl.insts;
    var phis, others, env := insts[..n], insts[n..], Env(varNames, 0);
    var lines := AllPhiLines(f.name, bbid, env, phis);
    var (rest, last) := AnnotateAll(f.name, bbid, AfterPhis(bbid, env, phis), others);
    assert InstsOf(PhiAnnotations(bbid, env, phis)) == phis;
    QuietThen(f, PhiAnnotations(bbid, env, phis), WithLines(lines, rest));
    LinesInFront(f, lines, rest);
    Associate(Untouched(phis), Nodes(Codes(lines)), BlockNodes(f, rest));
    AddBuffersAppend(s.buffers, lines, BlockLines(rest));
    StartBody(insts, n, Codes(lines));
  }

  lemma UpdateTwice<T>(s: seq<T>, b: nat, x: T, y: T)
    requires b < |s|
    ensures s[b := x][b := y] == s[b := y]
  {
  }

  lemma StartBody(insts: seq<Inst>, n: nat, codes: seq<Code>)
    requires n <= |insts|
    ensures Splice(Untouched(insts), |insts| - n, codes) == Untouched(insts[..n]) + Nodes(codes) + Untouched(insts[n..])
  {
    assert Untouched(insts)[..n] == Untouched(insts[..n]) && Untouched(insts)[n..] == Untouched(insts[n..]);
  }

  /** The lines of the phis before the j-th are in place, those of the others remain. */
  ghost predicate PhisLeft(f: Func, bbid: string, s0: Shape, s: Shape, b: nat, rem: nat, env0: Env, phis: seq<Inst>,
                           env: Env, j: nat, done: seq<Line>)
    requires (forall i <- phis :: i.kind.Phi?) && j <= |phis|
  {
    && At(s0, b, rem) && s == PutLines(s0, b, rem, done)
    && done + AllPhiLines(f.name, bbid, env, phis[j..]) == AllPhiLines(f.name, bbid, env0, phis)
    && AfterPhis(bbid, env, phis[j..]) == AfterPhis(bbid, env0, phis)
  }

  lemma StartPhis(f: Func, bbid: string, s: Shape, b: nat, rem: nat, env: Env, phis: seq<Inst>)
    requires (forall i <- phis :: i.kind.Phi?) && At(s, b, rem)
    ensures PhisLeft(f, bbid, s, s, b, rem, env, phis, env, 0, [])
  {
    PutLinesNone(s, b, rem);
    assert phis[0..] == phis && [] + AllPhiLines(f.name, bbid, env, phis) == AllPhiLines(f.name, bbid, env, phis);
  }

  lemma PhiStep(f: Func, bbid: string, s0: Shape, s: Shape, b: nat, rem: nat, env0: Env, phis: seq<Inst>, env: Env,
                j: nat, done: seq<Line>)
    requires (forall i <- phis :: i.kind.Phi?) && j < |phis|
    requires PhisLeft(f, bbid, s0, s, b, rem, env0, phis, env, j, done)
    ensures var lines := PhiLines(f.name, bbid, env, phis[j]);
            PhisLeft(f, bbid, s0, PutLines(s, b, rem, lines), b, rem, env0, phis, AfterPhi(bbid, env, phis[j]), j + 1,
                     done + lines)
  {
    var lines, rest := PhiLines(f.name, bbid, env, phis[j]), phis[j..];
    assert rest[0] == phis[j] && rest[1..] == phis[j + 1..];
    PutLinesTwice(s0, b, rem, done, lines);
    Associate(done, lines, AllPhiLines(f.name, bbid, AfterPhi(bbid, env, phis[j]), phis[j + 1..]));
  }

  lemma FinishPhis(f: Func, bbid: string, s0: Shape, s: Shape, b: nat, rem: nat, env0: Env, phis: seq<Inst>, env: Env,
                   j: nat, done: seq<Line>)
    requires (forall i <- phis :: i.kind.Phi?) && j == |phis|
    requires PhisLeft(f, bbid, s0, s, b, rem, env0, phis, env, j, done)
    ensures s == PutLines(s0, b, rem, AllPhiLines(f.name, bbid, env0, phis)) && env == AfterPhis(bbid, env0, phis)
  {
    assert phis[j..] == [] && done + [] == done;
  }

  predicate IsPhi(n: Node) {
    n.Original? && n.inst.kind.Phi?
  }

  /** A block that starts with these phis, then has `rem` other nodes. */
  ghost predicate PhisFirst(s: Shape, b: nat, rem: nat, phis: seq<Inst>) {
    && (forall i <- phis :: i.kind.Phi?)
    && 0 < b < |s.bodies| && 0 < rem && |s.bodies[b]| == |phis| + rem
    && s.bodies[b][..|phis|] == Untouched(phis) && !IsPhi(s.bodies[b][|phis|])
  }

  lemma CountedPhisFirst(s: Shape, b: nat, insts: seq<Inst>)
    requires 0 < b < |s.bodies| && s.bodies[b] == Untouched(insts) && PhiCount(insts) < |insts|
    ensures PhisFirst(s, b, |insts| - PhiCount(insts), insts[..PhiCount(insts)])
  {
    var n := PhiCount(insts);
    assert !insts[n].kind.Phi? && Untouched(insts)[n] == Original(insts[n]);
  }

  /** Insertions after the phis leave the phis where they are. */
  lemma LivePhi(nodes: seq<Node>, rem: nat, codes: seq<Code>, n: nat, j: nat)
    requires |nodes| == n + rem && 0 < rem && j <= n && !IsPhi(nodes[n])
    ensures |Splice(nodes, rem, codes)| > n
    ensures if j < n then Splice(nodes, rem, codes)[j] == nodes[j] else !IsPhi(Splice(nodes, rem, codes)[j])
  {
  }

  /** The node that the live iterator is at when j phis are done. */
  lemma LivePhiNode(s0: Shape, s: Shape, b: nat, rem: nat, phis: seq<Inst>, done: seq<Line>, j: nat)
    requires PhisFirst(s0, b, rem, phis) && At(s0, b, rem) && s == PutLines(s0, b, rem, done) && j <= |phis|
    ensures b < |Whole(s)| && j < |Whole(s)[b]|
    ensures if j < |phis| then Whole(s)[b][j] == Original(phis[j]) else !IsPhi(Whole(s)[b][j])
  {
    var nodes := s0.bodies[b];
    LivePhi(nodes, rem, Codes(done), |phis|, j);
    assert Whole(s)[b] == Splice(nodes, rem, Codes(done));
    if j < |phis| {
      assert nodes[j] == nodes[..|phis|][j] == Untouched(phis)[j];
    }
  }

  lemma LiveInst(s: Shape, b: nat, front: seq<Node>, rest: seq<Inst>)
    requires b < |s.bodies| && s.bodies[b] == front + Untouched(rest) && rest != []
    ensures |rest| <= |Whole(s)[b]| && Whole(s)[b][|Whole(s)[b]| - |rest|] == Original(rest[0])
  {
  }

  /** A block nothing was inserted in yet, seen through the iterator. */
  lemma UntouchedBlock(s: Shape, b: nat, insts: seq<Inst>)
    requires b < |s.bodies| && s.bodies[b] == Untouched(insts) && (b == 0 ==> s.buffers == [])
    ensures Whole(s)[b] == Untouched(insts) && |Untouched(insts)| == |insts|
    ensures FirstInsertionPoint(Whole(s)[b]) == PhiCount(insts)
  {
    UntouchedInsertionPoint(insts);
  }

  /** Only a block other than the entry block can start with a phi. */
  lemma StartsWithPhi(s: Shape, b: nat, insts: seq<Inst>)
    requires NoEntryPhi(s) && b < |s.bodies| && s.bodies[b] == Untouched(insts) && (b == 0 ==> s.buffers == [])
    requires PhiCount(insts) < |insts|
    ensures if IsPhi(Whole(s)[b][0]) then b > 0 && PhiCount(insts) > 0 else PhiCount(insts) == 0
  {
    UntouchedBlock(s, b, insts);
  }

  lemma WholeFront(s: Shape)
    requires s.bodies != []
    ensures |Whole(s)[0]| - |s.buffers| == |s.bodies[0]|
  {
  }

  lemma NoPhis(f: Func, bbid: string, varNames: map<int, string>, s: Shape, b: nat, insts: seq<Inst>)
    requires PhiCount(insts) == 0 && At(s, b, |insts|)
    ensures PutPhis(f, bbid, varNames, s, b, insts) == s && PhiEnv(bbid, varNames, insts) == Env(varNames, 0)
  {
    assert insts[..PhiCount(insts)] == [];
    PutLinesNone(s, b, |insts|);
  }

  /** The last nodes of the block are these original instructions. */
  ghost predicate EndsIn(s: Shape, b: nat, later: seq<Inst>) {
    At(s, b, |later|) && s.bodies[b][|s.bodies[b]| - |later|..] == Untouched(later)
  }

  lemma RestAtEnd(s: Shape, b: nat, front: seq<Node>, rest: seq<Inst>)
    requires b < |s.bodies| && s.bodies[b] == front + Untouched(rest) && rest != []
    ensures EndsIn(s, b, rest[1..])
  {
    assert Untouched(rest)[1..] == Untouched(rest[1..]);
  }

  lemma PutKeepsEnd(s: Shape, b: nat, rem: nat, codes: seq<Code>, later: seq<Inst>)
    requires EndsIn(s, b, later) && At(s, b, rem) && |later| <= rem
    ensures EndsIn(Put(s, b, rem, codes), b, later)
  {
    var nodes := s.bodies[b];
    var front, back := nodes[..|nodes| - rem] + Nodes(codes), nodes[|nodes| - rem..];
    Associate(nodes[..|nodes| - rem], Nodes(codes), back);
    assert (front + back)[|front + back| - |later|..] == back[rem - |later|..];
    assert back[rem - |later|..] == nodes[|nodes| - |later|..];
  }

  /** The instruction that stands `left` nodes before the end. */
  lemma LaterInst(s: Shape, b: nat, later: seq<Inst>, left: nat)
    requires EndsIn(s, b, later) && 0 < left <= |later|
    ensures left <= |Whole(s)[b]| && Whole(s)[b][|Whole(s)[b]| - left] == Original(later[|later| - left])
  {
    var nodes := s.bodies[b];
    assert nodes[|nodes| - left] == nodes[|nodes| - |later|..][|later| - left];
  }

  lemma DoneBlock(f: Func, bbid: string, env: Env, s: Shape, b: nat, front: seq<Node>, goal: seq<Node>,
                  goalBuffers: seq<Type>, goalNames: map<int, string>)
    requires Doing(f, bbid, env, s, b, front, [], goal, goalBuffers, goalNames)
    ensures s.bodies[b] == goal && s.buffers == goalBuffers && env.varNames == goalNames
  {
    assert front + [] == front;
  }

  // ---------- the whole function ----------

  ghost predicate Proper(f: Func) {
    && (forall b <- f.blocks :: PhiCount(b.insts) < |b.insts|)
    && (f.blocks != [] ==> PhiCount(f.blocks[0].insts) == 0)
  }

  predicate IsBuffer(table: map<BufferKey, Type>, n: Node) {
    n.Inserted? && n.code.Allocate? && n.code.ty.VecT? && KeyOf(n.code.ty) in table
    && table[KeyOf(n.code.ty)] == n.code.ty
  }

  ghost predicate NoAllocationFirst(s: Shape) {
    s.bodies != [] && s.bodies[0] != [] && (s.bodies[0][0].Inserted? ==> !s.bodies[0][0].code.Allocate?)
  }

  lemma EntryNode(s: Shape, at: nat)
    requires NoAllocationFirst(s) && at <= |s.buffers|
    ensures at < |Whole(s)[0]|
    ensures at < |s.buffers| ==> Whole(s)[0][at] == Inserted(Allocate(s.buffers[|s.buffers| - 1 - at]))
    ensures at == |s.buffers| ==> Whole(s)[0][at] == s.bodies[0][0]
  {
  }

  lemma BufferIsRegistered(buffers: seq<Type>, table: map<BufferKey, Type>, t: Type)
    requires OnePerKey(buffers) && Registered(buffers, table) && t in buffers
    ensures IsBuffer(table, Inserted(Allocate(t)))
  {
    assert HasKey(buffers, KeyOf(t));
    assert table[KeyOf(t)] in buffers;
  }

  /** The buffers of the function, and only they, stand in front of the entry block's own nodes. */
  lemma BufferOrNot(s: Shape, table: map<BufferKey, Type>, at: nat)
    requires NoAllocationFirst(s) && OnePerKey(s.buffers) && Registered(s.buffers, table) && at <= |s.buffers|
    ensures at < |Whole(s)[0]| && (IsBuffer(table, Whole(s)[0][at]) <==> at < |s.buffers|)
  {
    EntryNode(s, at);
    if at < |s.buffers| {
      BufferIsRegistered(s.buffers, table, s.buffers[|s.buffers| - 1 - at]);
    }
  }

  /** All of the entry code in front of the entry block. */
  lemma EntryEdit(f: Func, s: Shape)
    requires s.bodies != [] && f.supported && f.name != "main"
    ensures At(s, 0, |s.bodies[0]|)
    ensures var r := PutLines(Put(s, 0, |s.bodies[0]|, EntryUpdates(f)), 0, |s.bodies[0]|, ParamLinesFrom(f, 0));
            && r.bodies == s.bodies[0 := Nodes(EntryCodes(f)) + s.bodies[0]]
            && r.buffers == AddBuffers(s.buffers, EntryLines(f))
  {
    SpliceTwice(s.bodies[0], |s.bodies[0]|, EntryUpdates(f), Codes(EntryLines(f)));
    SpliceFront(s.bodies[0], EntryCodes(f));
  }

  lemma SpliceFront(nodes: seq<Node>, codes: seq<Code>)
    ensures Splice(nodes, |nodes|, codes) == Nodes(codes) + nodes
  {
  }

  /** The blocks before the b-th are as they should be, the others untouched. */
  ghost predicate BlocksLeft(f: Func, s: Shape, varNames: map<int, string>, b: nat)
    requires b <= |f.blocks|
  {
    var anns := AnnotateFunction(f);
    && f.supported && (b == 0 ==> s.buffers == []) && BodiesLeft(f, s.bodies, b)
    && AddBuffers(s.buffers, BlocksLines(anns[b..])) == AddBuffers([], BlocksLines(anns))
    && (!f.skipBody ==> AnnotateBlocks(f.name, varNames, f.blocks[b..]) == anns[b..])
  }

  ghost predicate BodiesLeft(f: Func, bodies: seq<seq<Node>>, b: nat)
    requires b <= |f.blocks|
  {
    && |bodies| == |f.blocks|
    && (forall k: nat :: k < b ==> bodies[k] == BlockNodes(f, AnnotateFunction(f)[k]))
    && (forall k: nat :: b <= k < |f.blocks| ==> bodies[k] == Untouched(f.blocks[k].insts))
  }

  lemma NextBody(f: Func, bodies: seq<seq<Node>>, b: nat)
    requires b < |f.blocks| && BodiesLeft(f, bodies, b)
    ensures BodiesLeft(f, bodies[b := BlockNodes(f, AnnotateFunction(f)[b])], b + 1)
  {
  }

  lemma StartFunction(f: Func, s: Shape)
    requires f.blocks != [] && Proper(f) && f.supported && s.buffers == []
    requires s.bodies == seq(|f.blocks|, k requires 0 <= k < |f.blocks| => Untouched(f.blocks[k].insts))
    ensures Whole(s) == s.bodies && NoEntryPhi(s) && BlocksLeft(f, s, map[], 0)
  {
    assert AnnotateFunction(f)[0..] == AnnotateFunction(f) && f.blocks[0..] == f.blocks;
    assert Allocations([]) + s.bodies[0] == s.bodies[0];
  }

  lemma PlanOf(f: Func, varNames: map<int, string>, b: nat)
    requires b < |f.blocks| && f.supported
    requires !f.skipBody ==> AnnotateBlocks(f.name, varNames, f.blocks[b..]) == AnnotateFunction(f)[b..]
    ensures var (anns, names) := Plan(f, varNames, f.blocks[b]);
            && anns == AnnotateFunction(f)[b]
            && (!f.skipBody ==> AnnotateBlocks(f.name, names, f.blocks[b + 1..]) == AnnotateFunction(f)[b + 1..])
  {
    if !f.skipBody {
      NextOf(BlockStep(f.name), varNames, f.blocks, AnnotateFunction(f), b);
    }
  }

  lemma NextOf<S, B, A>(step: (S, B) -> (A, S), s: S, bs: seq<B>, all: seq<A>, b: nat)
    requires b < |bs| == |all| && Accumulate(step, s, bs[b..]) == all[b..]
    ensures step(s, bs[b]).0 == all[b] && Accumulate(step, step(s, bs[b]).1, bs[b + 1..]) == all[b + 1..]
  {
    assert bs[b..][0] == bs[b] && bs[b..][1..] == bs[b + 1..];
    assert all[b..][0] == all[b] && all[b..][1..] == all[b + 1..];
    var rest := Accumulate(step, step(s, bs[b]).1, bs[b + 1..]);
    assert ([step(s, bs[b]).0] + rest)[1..] == rest;
  }

  /** Doing the b-th block as planned leaves the blocks after it. */
  lemma NextBlock(f: Func, s: Shape, varNames: map<int, string>, b: nat)
    requires b < |f.blocks| && BlocksLeft(f, s, varNames, b)
    ensures var (anns, names) := Plan(f, varNames, f.blocks[b]);
            BlocksLeft(f, Shape(s.bodies[b := BlockNodes(f, anns)], AddBuffers(s.buffers, BlockLines(anns))), names,
                       b + 1)
  {
    PlanOf(f, varNames, b);
    NextBody(f, s.bodies, b);
    NextBuffers(AnnotateFunction(f), s.buffers, b);
  }

  lemma NextBuffers(all: seq<seq<Annotated>>, buffers: seq<Type>, b: nat)
    requires b < |all|
    ensures AddBuffers(AddBuffers(buffers, BlockLines(all[b])), BlocksLines(all[b + 1..]))
            == AddBuffers(buffers, BlocksLines(all[b..]))
  {
    assert all[b..][0] == all[b] && all[b..][1..] == all[b + 1..];
    AddBuffersAppend(buffers, BlockLines(all[b]), BlocksLines(all[b + 1..]));
  }

  lemma FinishBlocks(f: Func, s: Shape, varNames: map<int, string>)
    requires f.blocks != [] && Proper(f) && BlocksLeft(f, s, varNames, |f.blocks|)
    ensures NoAllocationFirst(s)
    ensures BlocksDone(f, s)
  {
    assert AnnotateFunction(f)[|f.blocks|..] == [];
    var first := AnnotateFunction(f)[0];
    assert f.blocks[0] in f.blocks;
    assert first != [];
    BlockWithoutAllocations(f, first);
    assert InstNodes(f, first[0]) != [];
    assert s.bodies[0] == BlockNodes(f, first);
    assert s.bodies[0][0] in BlockNodes(f, first);
  }

  /** All blocks done as planned, nothing yet at the entry. */
  ghost predicate BlocksDone(f: Func, s: Shape) {
    && s.buffers == AddBuffers([], BlocksLines(AnnotateFunction(f)))
    && s.bodies == seq(|f.blocks|, k requires 0 <= k < |f.blocks| => BlockNodes(f, AnnotateFunction(f)[k]))
  }

  /** The blocks with the entry in front are the instrumented function. */
  lemma FinishEntry(f: Func, s: Shape, r: Shape)
    requires f.blocks != [] && BlocksDone(f, s)
    requires r.bodies == s.bodies[0 := Nodes(EntryCodes(f)) + s.bodies[0]]
    requires r.buffers == AddBuffers(s.buffers, EntryLines(f))
    ensures Whole(r) == Instrument(f)
  {
    AddBuffersAppend([], BlocksLines(AnnotateFunction(f)), EntryLines(f));
  }

  lemma FinishMain(f: Func, s: Shape)
    requires f.blocks != [] && BlocksDone(f, s) && f.name == "main"
    ensures Whole(s) == Instrument(f)
  {
    assert Nodes([]) + s.bodies[0] == s.bodies[0];
    FinishEntry(f, s, s);
  }

  /** A function without C linkage stays as it is. */
  lemma UnsupportedFunction(f: Func)
    requires !f.supported
    ensures Instrument(f) == seq(|f.blocks|, k requires 0 <= k < |f.blocks| => Untouched(f.blocks[k].insts))
  {
    var anns := AnnotateFunction(f);
    forall k: nat | k < |f.blocks|
      ensures BlockNodes(f, anns[k]) == Untouched(f.blocks[k].insts) && BlockLines(anns[k]) == []
    {
      BareNodes(f, f.blocks[k].insts);
    }
    NoLines(anns);
    assert AllLines(f) == [] && BuffersOf(f) == [] && EntryCodes(f) == [];
    forall k: nat | k < |f.blocks|
      ensures Instrument(f)[k] == Untouched(f.blocks[k].insts)
    {
      assert BlockNodes(f, anns[k]) == Untouched(f.blocks[k].insts);
      assert [] + ([] + BlockNodes(f, anns[k])) == BlockNodes(f, anns[k]);
    }
  }

  lemma {:induction false} NoLines(blocks: seq<seq<Annotated>>)
    requires forall k: nat :: k < |blocks| ==> BlockLines(blocks[k]) == []
    ensures BlocksLines(blocks) == []
    decreases blocks
  {
    if blocks != [] {
      NoLines(blocks[1..]);
    }
  }
}
