/** Decimal numerals as the printf family writes them, and how to read them back. */
module Numerals {
  import opened Wrappers

  function Digit(d: nat): char
    requires d < 10
  {
    (48 + d) as char
  }

  function IsDigit(c: char): bool {
    '0' <= c <= '9'
  }

  function NatText(n: nat): (s: string)
    ensures |s| >= 1
    ensures forall c <- s :: IsDigit(c)
  {
    if n < 10 then [Digit(n)] else NatText(n / 10) + [Digit(n % 10)]
  }

  function IntText(n: int): string {
    if n < 0 then "-" + NatText(-n) else NatText(n)
  }

  function ReadNat(s: string): Option<nat> {
    if s == "" || !IsDigit(s[|s| - 1]) then None
    else if |s| == 1 then Some((s[0] as int) - 48)
    else match ReadNat(s[..|s| - 1])
         case None => None
         case Some(n) => Some(10 * n + (s[|s| - 1] as int) - 48)
  }

  function ReadInt(s: string): Option<int> {
    if s != "" && s[0] == '-' then
      match ReadNat(s[1..])
      case None => None
      case Some(n) => var v: int := n; Some(-v)
    else
      match ReadNat(s)
      case None => None
      case Some(n) => var v: int := n; Some(v)
  }

  lemma {:induction false} ReadNatText(n: nat)
    ensures ReadNat(NatText(n)) == Some(n)
  {
    if n >= 10 {
      ReadNatText(n / 10);
      assert NatText(n)[..|NatText(n)| - 1] == NatText(n / 10);
    }
  }

  lemma SignOfText(n: int)
    ensures IntText(n) != "" && (IntText(n)[0] == '-' <==> n < 0)
    ensures n < 0 ==> IntText(n)[1..] == NatText(-n)
  {
    if n >= 0 {
      assert NatText(n)[0] in NatText(n);
    }
  }

  /** Reading a printed integer gives the integer back, so printing is injective. */
  lemma ReadIntText(n: int)
    ensures ReadInt(IntText(n)) == Some(n)
  {
    SignOfText(n);
    ReadNatText(if n < 0 then -n else n);
  }

  lemma IntTextChars(n: int)
    ensures forall c <- IntText(n) :: IsDigit(c) || c == '-'
    ensures IntText(n) != ""
  {
  }
}

/** Splitting a text at a separator, and joining the parts again. */
module Splitting {
  function Split(s: string, c: char): (parts: seq<string>)
    ensures |parts| >= 1
  {
    if s == "" then [""]
    else
      var rest := Split(s[1..], c);
      if s[0] == c then [""] + rest else [[s[0]] + rest[0]] + rest[1..]
  }

  function Join(parts: seq<string>, c: char): string
    requires |parts| >= 1
  {
    if |parts| == 1 then parts[0] else parts[0] + [c] + Join(parts[1..], c)
  }

  lemma {:induction false} SplitLast(x: string, c: char)
    requires c !in x
    ensures Split(x, c) == [x]
  {
    if x != "" {
      SplitLast(x[1..], c);
      assert [x[0]] + x[1..] == x;
      assert Split(x, c) == [[x[0]] + [x[1..]][0]] + [x[1..]][1..];
    }
  }

  lemma {:induction false} SplitFirst(x: string, c: char, rest: string)
    requires c !in x
    ensures Split(x + [c] + rest, c) == [x] + Split(rest, c)
  {
    var s := x + [c] + rest;
    if x == "" {
      assert s[1..] == rest;
    } else {
      assert s[1..] == x[1..] + [c] + rest;
      SplitFirst(x[1..], c, rest);
      assert [x[0]] + x[1..] == x;
      var tail := [x[1..]] + Split(rest, c);
      assert tail[1..] == Split(rest, c);
      assert Split(s, c) == [[s[0]] + tail[0]] + tail[1..];
    }
  }

  /** Splitting undoes joining when no part holds the separator. */
  lemma {:induction false} SplitJoin(parts: seq<string>, c: char)
    requires |parts| >= 1
    requires forall p <- parts :: c !in p
    ensures Split(Join(parts, c), c) == parts
  {
    if |parts| == 1 {
      SplitLast(parts[0], c);
    } else {
      SplitJoin(parts[1..], c);
      SplitFirst(parts[0], c, Join(parts[1..], c));
    }
  }

  lemma {:induction false} JoinAppend(a: seq<string>, b: seq<string>, c: char)
    requires |a| >= 1 && |b| >= 1
    ensures Join(a + b, c) == Join(a, c) + [c] + Join(b, c)
  {
    if |a| == 1 {
      assert (a + b)[1..] == b;
    } else {
      assert (a + b)[1..] == a[1..] + b;
      JoinAppend(a[1..], b, c);
      var x, y, z := a[0] + [c], Join(a[1..], c), [c] + Join(b, c);
      assert x + (y + z) == (x + y) + z;
      assert Join(a[1..], c) + [c] + Join(b, c) == y + z;
      assert Join(a, c) + [c] + Join(b, c) == (x + y) + z;
    }
  }

  lemma {:induction false} JoinAvoids(parts: seq<string>, c: char, d: char)
    requires |parts| >= 1 && c != d
    requires forall p <- parts :: d !in p
    ensures d !in Join(parts, c)
  {
    if |parts| > 1 {
      JoinAvoids(parts[1..], c, d);
    }
  }
}

/**
 The text of the dynamic trace: the records of profile-func/trace_logger.cpp, the
 pieces in which each one is printed, and a parser that recovers them.
 */
module TraceText {
  import opened Wrappers
  import opened Numerals
  import opened Splitting

  const RESULT_LINE := 19134
  const FORWARD_LINE := 24601

  /** What the logger prints. `Operand.reg` is the label of a register operand,
      `Operand.phi` the previous block of a phi operand. */
  datatype Record =
    | Entry(func: string, nparams: int)
    | Header(line: int, func: string, bb: string, inst: string, opcode: int, count: int)
    | Operand(tag: int, size: int, token: string, reg: Option<string>, phi: Option<string>)

  function TagText(tag: int): string {
    if tag == RESULT_LINE then "r" else if tag == FORWARD_LINE then "f" else IntText(tag)
  }

  /** The first gzprintf of an operand line: tag, size, value and register flag. */
  function OperandFront(tag: int, size: int, token: string, isReg: bool): (fs: seq<string>)
    ensures |fs| == 4
  {
    [TagText(tag), IntText(size), token, if isReg then "1" else "0"]
  }

  /** One string per gzprintf call, in the order of the calls. */
  function Pieces(r: Record): seq<string> {
    match r
    case Entry(f, n) => ["\n" + Join(["entry", f, IntText(n), ""], ',') + "\n"]
    case Header(line, f, bb, inst, op, count) =>
      ["\n" + Join(["0", IntText(line), f, bb, inst, IntText(op), IntText(count)], ',') + "\n"]
    case Operand(tag, size, token, reg, phi) =>
      [Join(OperandFront(tag, size, token, reg.Some?), ','),
       if reg.Some? then "," + reg.value else ", ",
       if phi.Some? then "," + phi.value + ",\n" else ",\n"]
  }

  function AllPieces(rs: seq<Record>): seq<string> {
    if rs == [] then [] else Pieces(rs[0]) + AllPieces(rs[1..])
  }

  lemma AllPiecesOne(r: Record)
    ensures AllPieces([r]) == Pieces(r)
  {
    assert [r][1..] == [];
    assert Pieces(r) + [] == Pieces(r);
  }

  lemma {:induction false} AllPiecesAppend(a: seq<Record>, b: seq<Record>)
    ensures AllPieces(a + b) == AllPieces(a) + AllPieces(b)
  {
    if a == [] {
      assert a + b == b;
    } else {
      assert (a + b)[1..] == a[1..] + b;
      AllPiecesAppend(a[1..], b);
    }
  }

  function Concat(pieces: seq<string>): string {
    if pieces == [] then "" else pieces[0] + Concat(pieces[1..])
  }

  lemma {:induction false} ConcatAppend(a: seq<string>, b: seq<string>)
    ensures Concat(a + b) == Concat(a) + Concat(b)
  {
    if a == [] {
      assert a + b == b;
    } else {
      assert (a + b)[1..] == a[1..] + b;
      ConcatAppend(a[1..], b);
    }
  }

  // ---------- decoding ----------

  ghost predicate Clean(s: string) {
    ',' !in s && '\n' !in s
  }

  /** The texts inside the record hold no comma and no newline, and an operand number is not 0. */
  ghost predicate Printable(r: Record) {
    match r
    case Entry(f, _) => Clean(f)
    case Header(_, f, bb, inst, _, _) => Clean(f) && Clean(bb) && Clean(inst)
    case Operand(tag, _, token, reg, phi) =>
      tag != 0 && Clean(token) && (reg.Some? ==> Clean(reg.value)) && (phi.Some? ==> Clean(phi.value))
  }

  /** The comma-separated fields of the one line of a record that is not blank. */
  function Fields(r: Record): (fs: seq<string>)
    ensures |fs| >= 1
  {
    match r
    case Entry(f, n) => ["entry", f, IntText(n), ""]
    case Header(line, f, bb, inst, op, count) =>
      ["0", IntText(line), f, bb, inst, IntText(op), IntText(count)]
    case Operand(tag, size, token, reg, phi) =>
      OperandFront(tag, size, token, reg.Some?)
      + (if phi.Some? then [reg.GetOr(" "), phi.value, ""] else [reg.GetOr(" "), ""])
  }

  function ReadTag(s: string): Option<int> {
    if s == "r" then Some(RESULT_LINE) else if s == "f" then Some(FORWARD_LINE) else ReadInt(s)
  }

  function ReadRecord(fs: seq<string>): Option<Record> {
    if |fs| == 4 && fs[0] == "entry" then
      match ReadInt(fs[2])
      case Some(n) => Some(Entry(fs[1], n))
      case None => None
    else if |fs| == 7 && fs[0] == "0" then
      match (ReadInt(fs[1]), ReadInt(fs[5]), ReadInt(fs[6]))
      case (Some(line), Some(op), Some(count)) => Some(Header(line, fs[2], fs[3], fs[4], op, count))
      case _ => None
    else if |fs| == 6 || |fs| == 7 then
      match (ReadTag(fs[0]), ReadInt(fs[1]))
      case (Some(tag), Some(size)) =>
        Some(Operand(tag, size, fs[2],
                     if fs[3] == "1" then Some(fs[4]) else None,
                     if |fs| == 7 then Some(fs[5]) else None))
      case _ => None
    else None
  }

  function ReadLines(lines: seq<string>): Option<seq<Record>> {
    if lines == [] then Some([])
    else if lines[0] == "" then ReadLines(lines[1..])
    else match (ReadRecord(Split(lines[0], ',')), ReadLines(lines[1..]))
         case (Some(r), Some(rs)) => Some([r] + rs)
         case _ => None
  }

  /** Read a whole trace (what follows the label map). */
  function Decode(text: string): Option<seq<Record>> {
    ReadLines(Split(text, '\n'))
  }

  lemma TagRoundTrip(tag: int)
    ensures ReadTag(TagText(tag)) == Some(tag)
    ensures tag != 0 ==> TagText(tag) != "0"
    ensures Clean(TagText(tag)) && TagText(tag) != "" && TagText(tag) != "entry"
  {
    IntTextChars(tag);
    ReadIntText(tag);
    ReadIntText(0);
    if tag != RESULT_LINE && tag != FORWARD_LINE {
      var t := TagText(tag);
      assert t[0] in t;
      assert IntText(0) == "0";
    }
  }

  lemma IntField(n: int)
    ensures ReadInt(IntText(n)) == Some(n) && Clean(IntText(n))
  {
    IntTextChars(n);
    ReadIntText(n);
  }

  lemma OperandFields(r: Record)
    requires r.Operand? && Printable(r)
    ensures ReadRecord(Fields(r)) == Some(r)
    ensures forall f <- Fields(r) :: Clean(f)
  {
    TagRoundTrip(r.tag);
    IntField(r.size);
    var fs := Fields(r);
    assert fs[0] == TagText(r.tag) && fs[1] == IntText(r.size) && fs[2] == r.token;
    assert fs[4] == r.reg.GetOr(" ");
  }

  lemma FieldsRoundTrip(r: Record)
    requires Printable(r)
    ensures ReadRecord(Fields(r)) == Some(r)
    ensures forall f <- Fields(r) :: Clean(f)
  {
    match r
    case Entry(f, n) =>
      IntField(n);
    case Header(line, _, _, _, op, count) =>
      IntField(line);
      IntField(op);
      IntField(count);
    case Operand(_, _, _, _, _) =>
      OperandFields(r);
  }

  /** The printed pieces of a record make up its fields, joined by commas, on one line. */
  lemma PiecesAreFields(r: Record)
    ensures Concat(Pieces(r)) == (if r.Operand? then "" else "\n") + Join(Fields(r), ',') + "\n"
  {
    if r.Operand? {
      OperandPieces(r);
    } else {
      assert Concat(Pieces(r)) == Pieces(r)[0] + "";
    }
  }

  lemma OperandPieces(r: Record)
    requires r.Operand?
    ensures Concat(Pieces(r)) == Join(Fields(r), ',') + "\n"
  {
    var a, b, c := Pieces(r)[0], Pieces(r)[1], Pieces(r)[2];
    ConcatThree(a, b, c);
    var back := if r.phi.Some? then [r.reg.GetOr(" "), r.phi.value, ""] else [r.reg.GetOr(" "), ""];
    JoinAppend(OperandFront(r.tag, r.size, r.token, r.reg.Some?), back, ',');
    BackPieces(r, back);
    assert a + "," + Join(back, ',') + "\n" == a + ("," + Join(back, ',') + "\n");
  }

  lemma ConcatThree(a: string, b: string, c: string)
    ensures Concat([a, b, c]) == a + (b + c)
  {
    assert [a, b, c][1..] == [b, c];
    assert [b, c][1..] == [c];
    assert Concat([c]) == c + "";
  }

  lemma JoinTwo(x: string, y: string)
    ensures Join([x, y], ',') == x + "," + y
  {
    assert [x, y][1..] == [y];
  }

  lemma JoinThree(x: string, y: string, z: string)
    ensures Join([x, y, z], ',') == x + "," + (y + "," + z)
  {
    assert [x, y, z][1..] == [y, z];
    JoinTwo(y, z);
  }

  lemma BackPieces(r: Record, back: seq<string>)
    requires r.Operand?
    requires back == if r.phi.Some? then [r.reg.GetOr(" "), r.phi.value, ""] else [r.reg.GetOr(" "), ""]
    ensures Pieces(r)[1] + Pieces(r)[2] == "," + Join(back, ',') + "\n"
  {
    var x := r.reg.GetOr(" ");
    assert Pieces(r)[1] == "," + x;
    if r.phi.Some? {
      JoinThree(x, r.phi.value, "");
      GlueThree(x, r.phi.value);
    } else {
      JoinTwo(x, "");
      GlueTwo(x);
    }
  }

  lemma GlueTwo(x: string)
    ensures "," + x + ",\n" == "," + (x + "," + "") + "\n"
  {
  }

  lemma GlueThree(x: string, y: string)
    ensures "," + x + ("," + y + ",\n") == "," + (x + "," + (y + "," + "")) + "\n"
  {
  }

  lemma ReadLine(r: Record)
    requires Printable(r)
    ensures '\n' !in Join(Fields(r), ',') && Join(Fields(r), ',') != ""
    ensures ReadRecord(Split(Join(Fields(r), ','), ',')) == Some(r)
  {
    FieldsRoundTrip(r);
    SplitJoin(Fields(r), ',');
    JoinAvoids(Fields(r), ',', '\n');
    assert |Split("", ',')| == 1;
  }

  lemma ReadHead(line: string, rest: string, r: Record)
    requires '\n' !in line && line != ""
    requires ReadRecord(Split(line, ',')) == Some(r)
    ensures Decode(line + "\n" + rest) ==
            match Decode(rest) { case Some(rs) => Some([r] + rs) case None => None }
  {
    SplitFirst(line, '\n', rest);
    assert ([line] + Split(rest, '\n'))[1..] == Split(rest, '\n');
  }

  lemma SkipBlank(rest: string)
    ensures Decode("\n" + rest) == Decode(rest)
  {
    SplitFirst("", '\n', rest);
    assert "" + "\n" + rest == "\n" + rest;
    assert ([""] + Split(rest, '\n'))[1..] == Split(rest, '\n');
  }

  /** A line, with or without a blank line before it, is read as the record in it. */
  lemma {:induction false} ReadText(blank: string, line: string, rest: string, r: Record)
    requires blank == "" || blank == "\n"
    requires '\n' !in line && line != "" && ReadRecord(Split(line, ',')) == Some(r)
    ensures Decode(blank + line + "\n" + rest) ==
            match Decode(rest) { case Some(rs) => Some([r] + rs) case None => None }
  {
    ReadHead(line, rest, r);
    var tail := line + "\n" + rest;
    if blank == "" {
      assert blank + line + "\n" + rest == tail;
    } else {
      SkipBlank(tail);
      assert blank + line + "\n" + rest == "\n" + tail;
    }
  }

  lemma ReadFirstRecord(r: Record, rest: string)
    requires Printable(r)
    ensures Decode(Concat(Pieces(r)) + rest) ==
            match Decode(rest) { case Some(rs) => Some([r] + rs) case None => None }
  {
    PiecesAreFields(r);
    ReadLine(r);
    ReadText(if r.Operand? then "" else "\n", Join(Fields(r), ','), rest, r);
  }

  /**
   The trace text is decodable: from the concatenation of everything the logger printed the
   parser recovers every record - tag, size, value token, register label, previous block.
   */
  lemma {:induction false} DecodeTrace(rs: seq<Record>)
    requires forall r <- rs :: Printable(r)
    ensures Decode(Concat(AllPieces(rs))) == Some(rs)
  {
    if rs == [] {
      assert Split("", '\n') == [""];
      assert ReadLines([""]) == ReadLines([""][1..]);
    } else {
      ConcatAppend(Pieces(rs[0]), AllPieces(rs[1..]));
      DecodeTrace(rs[1..]);
      ReadFirstRecord(rs[0], Concat(AllPieces(rs[1..])));
      assert [rs[0]] + rs[1..] == rs;
    }
  }
}
