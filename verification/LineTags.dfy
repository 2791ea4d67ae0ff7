/**
 The numbers of operand lines (full-trace/full_trace.cpp:501, 940, 1008, 1032, 1078): they
 never look like a header, a result or a forwarded argument, and no two operands of an
 instruction share one.
 */
module LineTags {
  import opened Wrappers
  import opened Numerals
  import opened TraceText
  import opened StaticIds
  import opened Ir
  import opened Annotations

  /** Lines for operands only, numbered from lo to hi. */
  ghost predicate Within(ls: seq<Line>, lo: nat, hi: nat) {
    forall l <- ls :: l.OperandLine? && lo <= l.tag <= hi
  }

  function TagOf(l: Line): int {
    if l.OperandLine? then l.tag else 0
  }

  ghost predicate DistinctTags(ls: seq<Line>) {
    forall i, j :: 0 <= i < j < |ls| ==> TagOf(ls[i]) != TagOf(ls[j])
  }

  lemma OneTag(varNames: map<int, string>, index: nat, o: Operand, intrinsic: bool)
    ensures var ls := OperandLines(varNames, index, o, intrinsic);
            |ls| <= 1 && Within(ls, index + 1, index + 1)
  {
  }

  lemma OnePhiTag(varNames: map<int, string>, index: nat, o: Operand, pred: BlockRef)
    ensures var ls := PhiOperandLines(varNames, index, o, pred);
            |ls| <= 1 && Within(ls, index + 1, index + 1)
  {
  }

  /** Two ranges that do not meet. */
  lemma Together(a: seq<Line>, lo: nat, hi: nat, b: seq<Line>, lo': nat, hi': nat)
    requires Within(a, lo, hi) && Within(b, lo', hi') && (hi < lo' || hi' < lo)
    requires |a| <= 1 && DistinctTags(b)
    ensures DistinctTags(a + b) && Within(a + b, if lo < lo' then lo else lo', if hi < hi' then hi' else hi)
  {
    forall l | l in a + b
      ensures l in a || l in b
    {
    }
    forall i, j | 0 <= i < j < |a + b|
      ensures TagOf((a + b)[i]) != TagOf((a + b)[j])
    {
      if i < |a| {
        assert a[i] in a && b[j - |a|] in b;
      }
    }
  }

  lemma NextTag(first: seq<Line>, n: nat, rest: seq<Line>, all: seq<Line>)
    requires n > 0 && |first| <= 1 && Within(first, n, n) && Within(rest, 1, n - 1) && DistinctTags(rest)
    requires all == first + rest
    ensures Within(all, 1, n) && DistinctTags(all)
  {
    Together(first, n, n, rest, 1, n - 1);
  }

  lemma {:induction false} DownTags(varNames: map<int, string>, i: Inst, n: nat)
    requires n <= |i.args|
    ensures Within(LinesDown(varNames, i, n), 1, n) && DistinctTags(LinesDown(varNames, i, n))
  {
    if n > 0 {
      DownTags(varNames, i, n - 1);
      OneTag(varNames, n - 1, i.args[n - 1], false);
      NextTag(OperandLines(varNames, n - 1, i.args[n - 1], false), n, LinesDown(varNames, i, n - 1),
              LinesDown(varNames, i, n));
    }
  }

  lemma {:induction false} PhiDownTags(varNames: map<int, string>, i: Inst, n: nat)
    requires i.kind.Phi? && n <= |i.args| && n <= |i.kind.preds|
    ensures Within(PhiLinesDown(varNames, i, n), 1, n) && DistinctTags(PhiLinesDown(varNames, i, n))
  {
    if n > 0 {
      var o, pred, rest := i.args[n - 1], i.kind.preds[n - 1], PhiLinesDown(varNames, i, n - 1);
      PhiDownTags(varNames, i, n - 1);
      OnePhiTag(varNames, n - 1, o, pred);
      NextTag(PhiOperandLines(varNames, n - 1, o, pred), n, rest, PhiLinesDown(varNames, i, n));
    }
  }

  lemma {:induction false} ArgumentTags(varNames: map<int, string>, i: Inst, k: nat)
    requires i.kind.DirectCall? && k <= |i.args|
    ensures Within(ArgumentLines(varNames, i, k), k + 1, |i.args|) && DistinctTags(ArgumentLines(varNames, i, k))
    decreases |i.args| - k
  {
    if k < |i.args| && k < i.kind.formals {
      ArgumentTags(varNames, i, k + 1);
      OneTag(varNames, k, i.args[k], i.kind.intrinsic);
      Together(OperandLines(varNames, k, i.args[k], i.kind.intrinsic), k + 1, k + 1, ArgumentLines(varNames, i, k + 1),
               k + 2, |i.args|);
    }
  }

  /**
   The lines in front of an instruction: operands have numbers of their own, from 1 to one more
   than the number of arguments (a call also shows its callee); its result is marked as such.
   */
  lemma InstTags(func: string, bbid: string, env: Env, i: Inst, later: seq<Inst>)
    requires Traced(i)
    ensures var a := Annotate(func, bbid, env, i, later).0;
            && a.before[0].HeaderLine? && Within(a.before[1..], 1, |i.args| + 1) && DistinctTags(a.before[1..])
            && Within(a.after, RESULT_LINE, RESULT_LINE)
  {
    var lines := AllOperandLines(env.varNames, i);
    if i.kind.DirectCall? {
      ArgumentTags(env.varNames, i, 0);
      Together(CalleeLines(i), |i.args| + 1, |i.args| + 1, ArgumentLines(env.varNames, i, 0), 1, |i.args|);
    } else {
      DownTags(env.varNames, i, |i.args|);
    }
    assert Annotate(func, bbid, env, i, later).0.before[1..] == lines;
  }

  /** The lines of a phi: its header, then operands with numbers of their own, then its result. */
  lemma PhiTags(func: string, bbid: string, env: Env, i: Inst)
    requires i.kind.Phi?
    ensures var n := if |i.args| <= |i.kind.preds| then |i.args| else |i.kind.preds|;
            var operands := PhiLinesDown(env.varNames, i, n);
            var id := InstId(env.varNames, i.name, i.slot, bbid, env.instc).0;
            && PhiLines(func, bbid, env, i)
               == [HeaderLine(i.line, func, bbid, id, ShownOpcode(i))] + operands + ResultLines(i, id)
            && Within(operands, 1, n) && DistinctTags(operands)
            && Within(ResultLines(i, id), RESULT_LINE, RESULT_LINE)
  {
    PhiDownTags(env.varNames, i, if |i.args| <= |i.kind.preds| then |i.args| else |i.kind.preds|);
  }

  /** The numbers up to 19133 print as numerals, so that they cannot be taken for the header's 0,
      a result's r or a forwarded argument's f. */
  lemma TagsReadable(tag: nat)
    requires 1 <= tag < RESULT_LINE
    ensures TagText(tag) == IntText(tag) && TagText(tag) !in {"0", TagText(RESULT_LINE), TagText(FORWARD_LINE)}
  {
    ReadIntText(tag);
    IntTextChars(tag);
    TagRoundTrip(tag);
    assert TagText(tag)[0] in TagText(tag);
  }

  /** The parameters of a tracked function have their own numbers from 1; those of any other
      function are marked as forwarded. */
  lemma {:induction false} ParameterTags(f: Func, k: nat)
    requires k <= |f.params|
    ensures f.tracked ==> Within(ParamLinesFrom(f, k), k + 1, |f.params|) && DistinctTags(ParamLinesFrom(f, k))
    ensures !f.tracked ==> Within(ParamLinesFrom(f, k), FORWARD_LINE, FORWARD_LINE)
    decreases |f.params| - k
  {
    if k < |f.params| {
      ParameterTags(f, k + 1);
      var p := f.params[k];
      var lines := ParamLines(if f.tracked then k + 1 else FORWARD_LINE, MemSize(TypeOf(p)), Some(p), NameOf(p).Some?,
                              NameOf(p).GetOr(""), false, None);
      if f.tracked {
        Together(lines, k + 1, k + 1, ParamLinesFrom(f, k + 1), k + 2, |f.params|);
      }
    }
  }
}
