/**
 The values of the operand lines and the token printed for each of them, with the
 byte-to-hex conversion used for vectors (profile-func/trace_logger.cpp:143-154, 323-347).
 */
module Tokens {
  import opened Wrappers
  import opened Numerals

  type Byte = x: int | 0 <= x < 256

  /** The value argument of the five operand printers. A double is the text "%f" gives it. */
  datatype Value =
    | IntV(n: int)
    | PtrV(address: nat)
    | StrV(text: string)
    | DblV(printed: string)
    | VecV(bytes: seq<Byte>)

  function HexDigit(d: nat): char
    requires d < 16
  {
    if d < 10 then Digit(d) else (87 + d) as char
  }

  function HexNat(n: nat): string {
    if n < 16 then [HexDigit(n)] else HexNat(n / 16) + [HexDigit(n % 16)]
  }

  function HexBytes(bytes: seq<Byte>): string {
    if bytes == [] then ""
    else [HexDigit(bytes[0] / 16), HexDigit(bytes[0] % 16)] + HexBytes(bytes[1..])
  }

  function VectorToken(bytes: seq<Byte>): string {
    "0x" + HexBytes(bytes)
  }

  /** The alternate form "%#llx" has no prefix for zero (section 7.21.6.1 of ISO/IEC 9899:2011). */
  function Token(v: Value): string {
    match v
    case IntV(n) => IntText(n)
    case PtrV(a) => if a == 0 then "0" else "0x" + HexNat(a)
    case StrV(s) => s
    case DblV(s) => s
    case VecV(bytes) => VectorToken(bytes)
  }

  function ReadHexDigit(c: char): Option<nat> {
    if IsDigit(c) then Some((c as int) - 48)
    else if 'a' <= c <= 'f' then Some((c as int) - 87)
    else None
  }

  function ReadHexBytes(s: string): Option<seq<Byte>> {
    if s == "" then Some([])
    else if |s| == 1 then None
    else match (ReadHexDigit(s[0]), ReadHexDigit(s[1]), ReadHexBytes(s[2..]))
         case (Some(hi), Some(lo), Some(rest)) => if hi < 16 && lo < 16 then Some([16 * hi + lo] + rest) else None
         case _ => None
  }

  function ReadVectorToken(s: string): Option<seq<Byte>> {
    if |s| >= 2 && s[..2] == "0x" then ReadHexBytes(s[2..]) else None
  }

  lemma {:induction false} ReadHexBytesText(bytes: seq<Byte>)
    ensures |HexBytes(bytes)| == 2 * |bytes|
    ensures ReadHexBytes(HexBytes(bytes)) == Some(bytes)
  {
    if bytes != [] {
      ReadHexBytesText(bytes[1..]);
      var s := HexBytes(bytes);
      assert s[2..] == HexBytes(bytes[1..]);
      assert s[0] == HexDigit(bytes[0] / 16) && s[1] == HexDigit(bytes[0] % 16);
      assert [bytes[0]] + bytes[1..] == bytes;
    }
  }

  /** Decoding the digits of a vector token returns the original bytes. */
  lemma VectorTokenRoundTrip(bytes: seq<Byte>)
    ensures ReadVectorToken(VectorToken(bytes)) == Some(bytes)
    ensures |VectorToken(bytes)| == 2 + 2 * |bytes|
  {
    ReadHexBytesText(bytes);
    assert VectorToken(bytes)[2..] == HexBytes(bytes);
  }

  lemma {:induction false} HexBytesSnoc(bytes: seq<Byte>, b: Byte)
    ensures HexBytes(bytes + [b]) == HexBytes(bytes) + [HexDigit(b / 16), HexDigit(b % 16)]
  {
    if bytes == [] {
      assert ([] + [b])[1..] == [];
    } else {
      assert (bytes + [b])[1..] == bytes[1..] + [b];
      HexBytesSnoc(bytes[1..], b);
    }
  }

  /** sprintf with "%02x": two digits and a terminator. */
  method PrintByte(buf: array<char>, at: nat, b: Byte)
    requires at + 2 < buf.Length
    modifies buf
    ensures buf[..at + 2] == old(buf[..at]) + [HexDigit(b / 16), HexDigit(b % 16)]
    ensures buf[at + 2] == '\0' && buf[at + 3..] == old(buf[at + 3..])
  {
    buf[at], buf[at + 1], buf[at + 2] := HexDigit(b / 16), HexDigit(b % 16), '\0';
  }

  /** Writes "0x", two digits per byte and a terminator; nothing beyond them. */
  method ConvertBytesToHex(buf: array<char>, value: array<Byte>, size: nat)
    requires size <= value.Length && 2 * size + 3 <= buf.Length
    modifies buf
    ensures buf[..2 * size + 2] == VectorToken(value[..size])
    ensures buf[2 * size + 2] == '\0'
    ensures buf[2 * size + 3..] == old(buf[2 * size + 3..])
  {
    buf[0], buf[1], buf[2] := '0', 'x', '\0';
    var at := 2;
    for i := 0 to size
      invariant at == 2 + 2 * i
      invariant buf[..at] == VectorToken(value[..i])
      invariant buf[2 * size + 3..] == old(buf[2 * size + 3..])
    {
      HexBytesSnoc(value[..i], value[i]);
      assert value[..i + 1] == value[..i] + [value[i]];
      ghost var tail := buf[at + 3..];
      PrintByte(buf, at, value[i]);
      assert buf[2 * size + 3..] == tail[2 * size - at..];
      at := at + 2;
    }
    buf[at] := '\0';
  }

  /** The stack buffer of `size/4+3` characters is large enough for every bit size, also one
      that is not a multiple of 8, and the string read from it decodes to the logged bytes. */
  method VectorText(value: array<Byte>, size: nat) returns (text: string)
    requires size / 8 <= value.Length
    ensures text == VectorToken(value[..size / 8])
    ensures |text| < size / 4 + 3
    ensures ReadVectorToken(text) == Some(value[..size / 8])
  {
    var buf := new char[size / 4 + 3];
    ConvertBytesToHex(buf, value, size / 8);
    text := buf[..2 * (size / 8) + 2];
    VectorTokenRoundTrip(value[..size / 8]);
  }
}
