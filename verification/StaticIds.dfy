/**
 The static ids of blocks and instructions (full-trace/full_trace.cpp:787-814, 850-874):
 how they are built, and when two of them can be equal.
 */
module StaticIds {
  import opened Wrappers
  import opened Numerals

  function Truncate(s: string, n: nat): string {
    if |s| <= n then s else s[..n]
  }

  /** A basic block as the pass names it. */
  datatype BlockRef = BlockRef(index: nat, name: Option<string>, slot: nat, depth: nat)

  /** The name, or else the slot number. */
  function BlockText(b: BlockRef): string {
    match b.name
    case Some(n) => n
    case None => NatText(b.slot)
  }

  /** "name:depth" cut after two characters of the depth, or "slot:depth" cut after six. */
  function BlockId(b: BlockRef): string {
    Truncate(BlockText(b) + ":" + NatText(b.depth), if b.name.Some? then |b.name.value| + 3 else 6)
  }

  /** The id of an instruction and the counter after it. `varNames` is slotToVarName; a slot of
      -1 means that the instruction produces no value (or that it is named). */
  function InstId(varNames: map<int, string>, name: Option<string>, slot: int, bbid: string, instc: nat)
    : (string, nat)
  {
    if name.Some? then (name.value, instc)
    else if slot in varNames then (varNames[slot], instc)
    else if slot >= 0 then (IntText(slot), instc)
    else (ValuelessId(bbid, instc), instc + 1)
  }

  function ValuelessId(bbid: string, k: nat): string {
    bbid + "-" + NatText(k)
  }

  // ---------- block ids ----------

  /** What stands before the last colon. */
  function BeforeLastColon(s: string): Option<string> {
    if s == "" then None
    else if s[|s| - 1] == ':' then Some(s[..|s| - 1])
    else BeforeLastColon(s[..|s| - 1])
  }

  lemma {:induction false} LastColon(text: string, tail: string)
    requires ':' !in tail
    ensures BeforeLastColon(text + ":" + tail) == Some(text)
    decreases |tail|
  {
    var s := text + ":" + tail;
    if tail == "" {
      assert s[..|s| - 1] == text;
    } else {
      var shorter := tail[..|tail| - 1];
      assert s[..|s| - 1] == text + ":" + shorter;
      assert s[|s| - 1] in tail;
      LastColon(text, shorter);
    }
  }

  lemma {:induction false} NoColon(s: string)
    requires ':' !in s
    ensures BeforeLastColon(s) == None
    decreases |s|
  {
    if s != "" {
      NoColon(s[..|s| - 1]);
    }
  }

  /** An unnamed block with a slot of six digits or more: nothing after them fits into the id. */
  predicate Cut(b: BlockRef) {
    b.name.None? && |NatText(b.slot)| >= 6
  }

  /** The characters of the loop depth that the id keeps. */
  function KeptDepth(b: BlockRef): string
    requires !Cut(b)
  {
    Truncate(NatText(b.depth), if b.name.Some? then 2 else 5 - |NatText(b.slot)|)
  }

  /** What the id of a block looks like and how it reads. */
  lemma BlockIdReads(b: BlockRef)
    ensures Cut(b) ==> BlockId(b) == NatText(b.slot)[..6] && BeforeLastColon(BlockId(b)) == None
    ensures !Cut(b) ==>
              BlockId(b) == BlockText(b) + ":" + KeptDepth(b)
              && BeforeLastColon(BlockId(b)) == Some(BlockText(b))
  {
    var text, depth := BlockText(b), NatText(b.depth);
    if Cut(b) {
      assert BlockId(b) == text[..6];
      assert forall c <- text[..6] :: c in text;
      NoColon(text[..6]);
    } else {
      CutAfterColon(text, depth, if b.name.Some? then 2 else 5 - |text|);
      assert forall c <- KeptDepth(b) :: c in depth;
      LastColon(text, KeptDepth(b));
    }
  }

  /** The id of a named block is its name, a colon and at most two characters of its loop depth; that of
      an unnamed block is its slot number, a colon and its loop depth, as far as six characters go. */
  lemma BlockIdShape(b: BlockRef)
    ensures b.name.Some? ==> exists d :: d <= NatText(b.depth) && |d| <= 2 && (|d| == 2 || d == NatText(b.depth))
                                         && BlockId(b) == b.name.value + ":" + d
    ensures b.name.None? ==>
              var whole := NatText(b.slot) + ":" + NatText(b.depth);
              BlockId(b) <= whole && |BlockId(b)| <= 6 && (|BlockId(b)| == 6 || BlockId(b) == whole)
  {
    if b.name.Some? {
      BlockIdReads(b);
      assert KeptDepth(b) <= NatText(b.depth);
    }
  }

  lemma CutAfterColon(text: string, depth: string, keep: nat)
    ensures Truncate(text + ":" + depth, |text| + 1 + keep) == text + ":" + Truncate(depth, keep)
  {
  }

  /**
   Exactly when two blocks have the same id: either both are unnamed with slots of at least six
   digits that agree in the first six, or neither is cut like that, and they have the same name
   or slot number and the same leading characters of the loop depth.
   */
  lemma BlockIdsEqual(a: BlockRef, b: BlockRef)
    ensures BlockId(a) == BlockId(b) <==>
            if Cut(a) && Cut(b) then NatText(a.slot)[..6] == NatText(b.slot)[..6]
            else !Cut(a) && !Cut(b) && BlockText(a) == BlockText(b) && KeptDepth(a) == KeptDepth(b)
  {
    BlockIdReads(a);
    BlockIdReads(b);
    if !Cut(a) && !Cut(b) && BlockId(a) == BlockId(b) {
      var text := BlockText(a);
      assert BlockText(b) == text;
      assert BlockId(a)[|text| + 1..] == KeptDepth(a) && BlockId(b)[|text| + 1..] == KeptDepth(b);
    }
  }

  /**
   Blocks with different names or slots have different ids, whatever their loop depths, as long
   as unnamed blocks have slots of at most six digits. (A name that is the numeral of an unnamed
   block's slot has the same text as that slot.)
   */
  lemma BlockIdsDistinct(a: BlockRef, b: BlockRef)
    requires a.name.None? ==> |NatText(a.slot)| <= 6
    requires b.name.None? ==> |NatText(b.slot)| <= 6
    requires BlockText(a) != BlockText(b)
    ensures BlockId(a) != BlockId(b)
  {
    BlockIdsEqual(a, b);
    assert Cut(a) ==> NatText(a.slot)[..6] == BlockText(a);
    assert Cut(b) ==> NatText(b.slot)[..6] == BlockText(b);
  }

  // ---------- ids of instructions without a value ----------

  function BeforeLastDash(s: string): Option<string> {
    if s == "" then None
    else if s[|s| - 1] == '-' then Some(s[..|s| - 1])
    else BeforeLastDash(s[..|s| - 1])
  }

  lemma {:induction false} LastDash(text: string, tail: string)
    requires '-' !in tail
    ensures BeforeLastDash(text + "-" + tail) == Some(text)
    decreases |tail|
  {
    var s := text + "-" + tail;
    if tail == "" {
      assert s[..|s| - 1] == text;
    } else {
      var shorter := tail[..|tail| - 1];
      assert s[..|s| - 1] == text + "-" + shorter;
      assert s[|s| - 1] in tail;
      LastDash(text, shorter);
    }
  }

  /** An id of this form belongs to one block and one position in it. */
  lemma ValuelessIdsDistinct(bb1: string, k1: nat, bb2: string, k2: nat)
    requires ValuelessId(bb1, k1) == ValuelessId(bb2, k2)
    ensures bb1 == bb2 && k1 == k2
  {
    LastDash(bb1, NatText(k1));
    LastDash(bb2, NatText(k2));
    var id := ValuelessId(bb1, k1);
    assert id[|bb1| + 1..] == NatText(k1) && id[|bb2| + 1..] == NatText(k2);
    ReadNatText(k1);
    ReadNatText(k2);
  }
}
