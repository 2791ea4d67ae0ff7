/**
 What stands in the trace file for a line: the text of each record, and what its value token says
 about the value (profile-func/trace_logger.cpp:143-154, 201-347; full-trace/full_trace.cpp:626-631).
 */
module LineTexts {
  import opened Wrappers
  import opened Numerals
  import opened Splitting
  import opened TraceText
  import opened Tokens
  import opened Logger
  import opened Ir
  import opened Annotations
  import opened Semantics
  import opened LineContent

  // ---------- the text of a record ----------

  lemma OnePiece(s: string)
    ensures Concat([s]) == s
  {
    assert [s][1..] == [];
  }

  lemma JoinFour(a: string, b: string, c: string, d: string)
    ensures Join([a, b, c, d], ',') == a + "," + b + "," + c + "," + d
  {
    JoinThree(b, c, d);
    assert [a, b, c, d][1..] == [b, c, d];
  }

  lemma JoinAhead(a: string, b: string, c: string, rest: seq<string>)
    requires rest != []
    ensures Join([a, b, c] + rest, ',') == a + "," + b + "," + c + "," + Join(rest, ',')
  {
    assert ([a, b, c] + rest)[1..] == [b, c] + rest && ([b, c] + rest)[1..] == [c] + rest && ([c] + rest)[1..] == rest;
    assert Join([c] + rest, ',') == c + "," + Join(rest, ',');
    assert Join([b, c] + rest, ',') == b + "," + Join([c] + rest, ',');
  }

  lemma Flatten(p: string, a: string, b: string, c: string, d: string)
    ensures p + (a + "," + b + "," + c + "," + d) == p + a + "," + b + "," + c + "," + d
  {
  }

  lemma JoinSeven(a: string, b: string, c: string, d: string, e: string, f: string, g: string)
    ensures Join([a, b, c, d, e, f, g], ',') == a + "," + b + "," + c + "," + d + "," + e + "," + f + "," + g
  {
    JoinAhead(a, b, c, [d, e, f, g]);
    JoinFour(d, e, f, g);
    Flatten(a + "," + b + "," + c + ",", d, e, f, g);
    assert [a, b, c] + [d, e, f, g] == [a, b, c, d, e, f, g];
  }

  lemma EntryText(func: string, nparams: int)
    ensures Concat(Pieces(Entry(func, nparams))) == "\nentry," + func + "," + IntText(nparams) + ",\n"
  {
    JoinFour("entry", func, IntText(nparams), "");
    OnePiece("\n" + Join(["entry", func, IntText(nparams), ""], ',') + "\n");
  }

  lemma AroundSeven(a: string, b: string, c: string, d: string, e: string, f: string)
    ensures "\n" + ("0" + "," + a + "," + b + "," + c + "," + d + "," + e + "," + f) + "\n"
            == "\n0," + a + "," + b + "," + c + "," + d + "," + e + "," + f + "\n"
  {
    assert "\n" + ("0" + ",") == "\n0,";
  }

  lemma HeaderText(line: int, func: string, bb: string, inst: string, opcode: int, count: nat)
    ensures Concat(Pieces(RecordOf(Log0(line, func, bb, inst, opcode), count)))
            == "\n0," + IntText(line) + "," + func + "," + bb + "," + inst + "," + IntText(opcode) + ","
               + IntText(count) + "\n"
  {
    var fs := ["0", IntText(line), func, bb, inst, IntText(opcode), IntText(count)];
    JoinSeven("0", IntText(line), func, bb, inst, IntText(opcode), IntText(count));
    AroundSeven(IntText(line), func, bb, inst, IntText(opcode), IntText(count));
    OnePiece("\n" + Join(fs, ',') + "\n");
  }

  lemma FrontText(front: string, flag: string, second: string, third: string, both: string)
    requires flag + second == both
    ensures (front + flag) + (second + third) == front + both + third
  {
  }

  lemma OperandText(tag: int, size: int, token: string, isReg: bool, name: string, isPhi: bool, prev: string,
                    count: nat)
    ensures Concat(Pieces(RecordOf(LogParam(tag, size, token, isReg, name, isPhi, prev), count)))
            == TagText(tag) + "," + IntText(size) + "," + token + ","
               + (if isReg then "1," + name else "0, ")
               + (if isPhi then "," + prev + ",\n" else ",\n")
  {
    var flag := if isReg then "1" else "0";
    var second, third := if isReg then "," + name else ", ", if isPhi then "," + prev + ",\n" else ",\n";
    var front := TagText(tag) + "," + IntText(size) + "," + token + ",";
    JoinFour(TagText(tag), IntText(size), token, flag);
    OperandPieces(tag, size, token, isReg, name, isPhi, prev, count);
    ConcatThree(front + flag, second, third);
    FrontText(front, flag, second, third, if isReg then "1," + name else "0, ");
  }

  lemma OperandPieces(tag: int, size: int, token: string, isReg: bool, name: string, isPhi: bool, prev: string,
                      count: nat)
    ensures Pieces(RecordOf(LogParam(tag, size, token, isReg, name, isPhi, prev), count))
            == [Join([TagText(tag), IntText(size), token, if isReg then "1" else "0"], ','),
                if isReg then "," + name else ", ", if isPhi then "," + prev + ",\n" else ",\n"]
  {
  }

  /** The whole text that a line of the instrumented code leaves in the file, when the trace logs. */
  lemma LineText<W>(m: Machine<W>, fr: Frame, l: Line, count: nat)
    ensures var text := Concat(Pieces(RecordOf(LineCall(m, fr, l), count)));
            match l
            case HeaderLine(line, func, bb, inst, opcode) =>
              text == "\n0," + IntText(line) + "," + func + "," + bb + "," + inst + "," + IntText(opcode) + ","
                      + IntText(count) + "\n"
            case OperandLine(tag, size, value, isReg, name, phi) =>
              text == (if tag == 19134 then "r" else if tag == 24601 then "f" else IntText(tag)) + ","
                      + IntText(size) + "," + ShownToken(m, fr, value) + ","
                      + (if isReg then "1," + name else "0, ")
                      + (match phi case Some(block) => "," + block + ",\n" case None => ",\n")
  {
    match l
    case HeaderLine(line, func, bb, inst, opcode) => HeaderText(line, func, bb, inst, opcode, count);
    case OperandLine(tag, size, value, isReg, name, phi) =>
      OperandText(tag, size, ShownToken(m, fr, value), isReg, name, phi.Some?, phi.GetOr("phi"), count);
  }

  // ---------- integers ----------

  lemma {:induction false} PowersRise(a: nat, b: nat)
    requires a <= b
    ensures PowerOfTwo(a) <= PowerOfTwo(b)
    decreases b
  {
    if a < b {
      PowersRise(a, b - 1);
    }
  }

  lemma {:induction false} PowersMultiply(a: nat, b: nat)
    ensures PowerOfTwo(a + b) == PowerOfTwo(a) * PowerOfTwo(b)
    decreases a
  {
    if a > 0 {
      PowersMultiply(a - 1, b);
      Regroup(PowerOfTwo(a - 1), PowerOfTwo(b));
    }
  }

  lemma Regroup(x: int, y: int)
    ensures 2 * (x * y) == (2 * x) * y
  {
  }

  lemma PowerLiterals()
    ensures PowerOfTwo(63) == 0x8000_0000_0000_0000 && PowerOfTwo(64) == 0x1_0000_0000_0000_0000
  {
    assert PowerOfTwo(4) == 16;
    PowersMultiply(4, 4);
    PowersMultiply(8, 8);
    PowersMultiply(16, 16);
    PowersMultiply(32, 32);
    assert PowerOfTwo(64) == 2 * PowerOfTwo(63);
  }

  predicate Apart(n: int, r: int, times: int, width: nat) {
    n == r + times * PowerOfTwo(width)
  }

  /** The signed 64-bit number that is printed for an integer of this width. */
  ghost predicate PrintedAs(width: nat, n: int, r: int) {
    && (exists times :: Apart(n, r, times, width))
    && -0x8000_0000_0000_0000 <= r < 0x8000_0000_0000_0000
    && (width < 64 ==> 0 <= r < PowerOfTwo(width))
  }

  lemma Divided(n: int, d: nat)
    requires d > 0
    ensures n == n % d + (n / d) * d
  {
  }

  /**
   What the token of an integer of at most 64 bits says: it reads as the signed 64-bit number that
   differs from the integer by a multiple of two to its width, and is not negative below 64 bits.
   */
  lemma IntegerReads(width: nat, n: int) returns (r: int)
    requires width <= 64
    ensures ReadInt(ValueToken(IntT(width), IntV(n))) == Some(r) && PrintedAs(width, n, r)
  {
    PowerLiterals();
    r := Extended(width, n);
    ReadIntText(r);
    var times := n / PowerOfTwo(width);
    Divided(n, PowerOfTwo(width));
    if width < 64 {
      PowersRise(width, 63);
      assert Apart(n, r, times, width);
    } else {
      assert Apart(n, r, if r < 0 then times + 1 else times, width);
    }
  }

  // ---------- addresses and vectors ----------

  function ReadHexNat(s: string): Option<nat> {
    if s == "" then None
    else
      match ReadHexDigit(s[|s| - 1])
      case None => None
      case Some(d) =>
        if |s| == 1 then Some(d)
        else
          match ReadHexNat(s[..|s| - 1])
          case None => None
          case Some(n) => Some(16 * n + d)
  }

  function ReadPointer(s: string): Option<nat> {
    if s == "0" then Some(0) else if |s| > 2 && s[..2] == "0x" then ReadHexNat(s[2..]) else None
  }

  lemma {:induction false} ReadHexNatText(n: nat)
    ensures HexNat(n) != "" && ReadHexNat(HexNat(n)) == Some(n)
  {
    if n >= 16 {
      ReadHexNatText(n / 16);
      assert HexNat(n)[..|HexNat(n)| - 1] == HexNat(n / 16);
    }
  }

  /** An address reads back, zero without a prefix. */
  lemma PointerReads(a: nat)
    ensures ReadPointer(ValueToken(PtrT, PtrV(a))) == Some(a)
  {
    if a > 0 {
      ReadHexNatText(a);
      assert ("0x" + HexNat(a))[..2] == "0x" && ("0x" + HexNat(a))[2..] == HexNat(a);
      assert Token(PtrV(a))[1] == 'x';
    }
  }

  /** Of a vector its bytes are read back, as many as its width holds. */
  lemma VectorReads(t: Type, bytes: seq<Byte>, size: nat)
    requires t.VecT? && IsWidth(t, size)
    ensures ReadVectorToken(ValueToken(t, VecV(bytes)))
            == Some(if size / 8 <= |bytes| then bytes[..size / 8] else bytes)
  {
    Widths(t);
    VectorTokenRoundTrip(FirstBytes(bytes, MemSize(t) / 8));
  }

  /** Digits stand in the usual order. */
  lemma DigitOrder()
    ensures IntText(-4096) == "-4096" && HexNat(0xbe7a) == "be7a"
    ensures VectorToken([0xbe, 0x7a]) == "0xbe7a"
  {
    assert NatText(4) == "4" && NatText(40) == "40" && NatText(409) == "409" && NatText(4096) == "4096";
    assert HexNat(0xb) == "b" && HexNat(0xbe) == "be" && HexNat(0xbe7) == "be7";
    assert HexBytes([0x7a]) == "7a" + HexBytes([]);
    assert [0xbe, 0x7a][1..] == [0x7a];
  }

  /**
   What the value token on a line says: 0 for no value and for a null pointer, the text of a string
   constant, and otherwise the value that the operand has at that moment.
   */
  lemma TokenReads<W>(m: Machine<W>, fr: Frame, v: LineValue)
    ensures var token := ShownToken(m, fr, v);
            match v
            case NoValue => token == "0"
            case NullPointer => token == "0"
            case StringText(text) => token == text
            case Of(o) =>
              match (TypeOf(o), Eval(m, fr, o))
              case (IntT(w), IntV(n)) =>
                w <= 64 ==> ReadInt(token).Some? && PrintedAs(w, n, ReadInt(token).value)
              case (PtrT, PtrV(a)) => ReadPointer(token) == Some(a)
              case (VecT(_, _), VecV(bytes)) =>
                forall size: nat :: IsWidth(TypeOf(o), size) ==>
                  ReadVectorToken(token) == Some(if size / 8 <= |bytes| then bytes[..size / 8] else bytes)
              case (FloatT(_), DblV(printed)) => token == printed
              case _ => true
  {
    if v.NoValue? {
      assert IntText(0) == "0";
    } else if v.Of? {
      match (TypeOf(v.operand), Eval(m, fr, v.operand))
      case (IntT(w), IntV(n)) =>
        if w <= 64 {
          var r := IntegerReads(w, n);
        }
      case (PtrT, PtrV(a)) => PointerReads(a);
      case (VecT(_, _), VecV(bytes)) =>
        forall size: nat | IsWidth(TypeOf(v.operand), size)
          ensures ReadVectorToken(ShownToken(m, fr, v))
                  == Some(if size / 8 <= |bytes| then bytes[..size / 8] else bytes)
        {
          VectorReads(TypeOf(v.operand), bytes, size);
        }
      case _ =>
    }
  }
}
