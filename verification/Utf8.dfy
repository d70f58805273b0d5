/** UTF-8 (RFC 3629, section 4) the way Rust's standard library reads it: one unit at a
    time, where a malformed unit is the longest prefix of a well-formed one. */
module Utf8 {
  import opened Text

  type Byte = b: int | 0 <= b < 256

  const REPLACEMENT: char := '\U{FFFD}'

  /** What the first bytes of a non-empty sequence are. */
  datatype Unit =
    | Scalar(value: char, len: nat)
    | Malformed(len: nat)
    | Truncated

  /** Length announced by a lead byte; 0 for a byte that starts nothing. */
  function UnitLength(lead: Byte): nat {
    if lead < 0x80 then 1
    else if 0xC2 <= lead <= 0xDF then 2
    else if 0xE0 <= lead <= 0xEF then 3
    else if 0xF0 <= lead <= 0xF4 then 4
    else 0
  }

  predicate IsContinuation(b: Byte) {
    0x80 <= b <= 0xBF
  }

  predicate SecondByteFits(lead: Byte, b: Byte) {
    if lead == 0xE0 then 0xA0 <= b <= 0xBF
    else if lead == 0xED then 0x80 <= b <= 0x9F
    else if lead == 0xF0 then 0x90 <= b <= 0xBF
    else if lead == 0xF4 then 0x80 <= b <= 0x8F
    else IsContinuation(b)
  }

  /** The payload of a byte whose marker bits amount to `mark`. */
  function Low(b: Byte, mark: int): int {
    b - mark
  }

  function NextUnit(bytes: seq<Byte>): (u: Unit)
    requires bytes != []
    ensures u.Scalar? ==> 1 <= u.len <= |bytes| && u.len == Utf8Width(u.value)
    ensures u.Malformed? ==> 1 <= u.len <= |bytes| && u.len <= 3
    ensures u.Truncated? ==> |bytes| <= 3
  {
    var lead := bytes[0];
    var n := UnitLength(lead);
    if n == 0 then Malformed(1)
    else if n == 1 then Scalar(lead as char, 1)
    else if |bytes| < 2 then Truncated
    else if !SecondByteFits(lead, bytes[1]) then Malformed(1)
    else if n == 2 then Scalar((Low(lead, 0xC0) * 64 + Low(bytes[1], 0x80)) as char, 2)
    else if |bytes| < 3 then Truncated
    else if !IsContinuation(bytes[2]) then Malformed(2)
    else if n == 3 then Scalar((Low(lead, 0xE0) * 4096 + Low(bytes[1], 0x80) * 64 + Low(bytes[2], 0x80)) as char, 3)
    else if |bytes| < 4 then Truncated
    else if !IsContinuation(bytes[3]) then Malformed(3)
    else
      Scalar((Low(lead, 0xF0) * 262144 + Low(bytes[1], 0x80) * 4096
              + Low(bytes[2], 0x80) * 64 + Low(bytes[3], 0x80)) as char, 4)
  }

  /** Bytes the first unit takes. */
  function UnitSize(bytes: seq<Byte>): (n: nat)
    requires bytes != []
    ensures 1 <= n <= |bytes|
  {
    match NextUnit(bytes)
    case Scalar(_, n) => n
    case Malformed(n) => n
    case Truncated => |bytes|
  }

  function UnitChar(u: Unit): char {
    if u.Scalar? then u.value else REPLACEMENT
  }

  /** `String::from_utf8_lossy`. */
  function Lossy(bytes: seq<Byte>): string {
    if bytes == [] then [] else [UnitChar(NextUnit(bytes))] + Lossy(bytes[UnitSize(bytes)..])
  }

  /** The result of `str::from_utf8`: no error, or where the first one is and whether it is
      an unexpected end of input (`error_len` is `None`) or a malformed unit. */
  datatype Check = Valid | EndsEarly(validUpTo: nat) | Broken(validUpTo: nat)

  function CheckUtf8(bytes: seq<Byte>): (c: Check)
    ensures !c.Valid? ==> c.validUpTo <= |bytes|
  {
    if bytes == [] then Valid
    else match NextUnit(bytes)
      case Truncated => EndsEarly(0)
      case Malformed(_) => Broken(0)
      case Scalar(_, n) =>
        match CheckUtf8(bytes[n..])
        case Valid => Valid
        case EndsEarly(k) => EndsEarly(n + k)
        case Broken(k) => Broken(n + k)
  }

  /** The truncated unit `bytes` ends with, empty when it ends between units. */
  function UnfinishedTail(bytes: seq<Byte>): (t: seq<Byte>)
    ensures |t| <= |bytes| && |t| <= 3
    ensures t != [] ==> NextUnit(t).Truncated?
  {
    if bytes == [] || NextUnit(bytes).Truncated? then bytes
    else UnfinishedTail(bytes[UnitSize(bytes)..])
  }

  function EncodeChar(c: char): (bytes: seq<Byte>)
    ensures |bytes| == Utf8Width(c)
  {
    var v := c as int;
    if v < 0x80 then [v]
    else if v < 0x800 then [0xC0 + v / 64, 0x80 + v % 64]
    else if v < 0x1_0000 then [0xE0 + v / 64 / 64, 0x80 + v / 64 % 64, 0x80 + v % 64]
    else [0xF0 + v / 64 / 64 / 64, 0x80 + v / 64 / 64 % 64, 0x80 + v / 64 % 64, 0x80 + v % 64]
  }

  /** `str::as_bytes`. */
  function Encode(s: string): (bytes: seq<Byte>)
    ensures |bytes| == ByteLen(s)
  {
    if s == [] then [] else EncodeChar(s[0]) + Encode(s[1..])
  }

  /** A finished unit is read the same whatever follows it. */
  lemma UnitIgnoresSuffix(a: seq<Byte>, b: seq<Byte>)
    requires a != [] && !NextUnit(a).Truncated?
    ensures NextUnit(a + b) == NextUnit(a)
    ensures (a + b)[UnitSize(a)..] == a[UnitSize(a)..] + b
  {
  }
  lemma UnitOfEncodedChar(c: char)
    ensures NextUnit(EncodeChar(c)) == Scalar(c, Utf8Width(c))
  {
    var v := c as int;
    if 0x800 <= v < 0x1_0000 {
      SplitDigits(v / 64);
    } else if 0x1_0000 <= v {
      SplitDigits(v / 64 / 64);
      SplitDigits(v / 64);
    }
  }

  lemma SplitDigits(v: nat)
    ensures v == v / 64 * 64 + v % 64
  {
  }

  lemma EncodedUnit(c: char, rest: seq<Byte>)
    ensures NextUnit(EncodeChar(c) + rest) == Scalar(c, Utf8Width(c))
    ensures (EncodeChar(c) + rest)[Utf8Width(c)..] == rest
  {
    hide NextUnit, EncodeChar;
    UnitOfEncodedChar(c);
    UnitIgnoresSuffix(EncodeChar(c), rest);
  }

  /** Decoding undoes encoding. */
  lemma {:induction false} LossyOfEncode(s: string, rest: seq<Byte>)
    ensures Lossy(Encode(s) + rest) == s + Lossy(rest)
  {
    hide *;
    if s == [] {
      LossyOfNothing(rest);
    } else {
      LossyOfEncode(s[1..], rest);
      EncodedFirst(s, rest);
      LossyOfOne(s[0], Encode(s[1..]) + rest);
      FirstAndRest(s, Lossy(rest));
    }
  }

  lemma FirstAndRest(s: string, more: string)
    requires s != []
    ensures s + more == [s[0]] + (s[1..] + more)
  {
  }

  lemma LossyOfNothing(rest: seq<Byte>)
    ensures Lossy(Encode([]) + rest) == [] + Lossy(rest)
  {
    assert Encode([]) + rest == rest;
    hide Lossy;
    assert [] + Lossy(rest) == Lossy(rest);
  }

  lemma EncodedFirst(s: string, rest: seq<Byte>)
    requires s != []
    ensures Encode(s) + rest == EncodeChar(s[0]) + (Encode(s[1..]) + rest)
  {
    hide EncodeChar;
  }

  lemma LossyOfOne(c: char, more: seq<Byte>)
    ensures Lossy(EncodeChar(c) + more) == [c] + Lossy(more)
  {
    hide NextUnit, EncodeChar;
    EncodedUnit(c, more);
  }

  lemma {:induction false} CheckOfEncode(s: string)
    ensures CheckUtf8(Encode(s)).Valid?
  {
    hide NextUnit, EncodeChar;
    if s != [] {
      EncodedUnit(s[0], Encode(s[1..]));
      CheckOfEncode(s[1..]);
    }
  }
}
