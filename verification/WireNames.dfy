/** Tool names for the wire: `{server}_{tool}` made safe, and shortened with a 32-bit FNV-1a
    hash (draft-eastlake-fnv, section 2) when too long. */
module WireNames {
  import opened Text
  import opened Utf8

  const MAX_TOOL_NAME: nat := 64

  predicate IsWireChar(c: char) {
    'a' <= c <= 'z' || 'A' <= c <= 'Z' || '0' <= c <= '9' || c == '_' || c == '-'
  }

  function WireChar(c: char): char {
    if IsWireChar(c) then c else '_'
  }

  function WireChars(s: string): (r: string)
    ensures |r| == |s| && forall i :: 0 <= i < |s| ==> r[i] == WireChar(s[i])
  {
    if s == [] then [] else [WireChar(s[0])] + WireChars(s[1..])
  }

  // ----- FNV-1a -----

  const TWO_32: int := 0x1_0000_0000

  type U32 = h: int | 0 <= h < TWO_32

  const OFFSET_BASIS: U32 := 0x811C_9DC5

  function XorBytes(a: Byte, b: Byte): Byte {
    XorBits(a, b, 8)
  }

  /** Exclusive or of the lowest `bits` bits. */
  function XorBits(a: nat, b: nat, bits: nat): (r: nat)
    ensures r < Power2(bits)
  {
    if bits == 0 then 0 else (a % 2 + b % 2) % 2 + 2 * XorBits(a / 2, b / 2, bits - 1)
  }

  function Power2(bits: nat): nat {
    if bits == 0 then 1 else 2 * Power2(bits - 1)
  }

  /** `hash ^ u32::from(b)`: only the low byte changes. */
  function XorLow(hash: U32, b: Byte): U32 {
    hide XorBytes;
    assert hash / 256 < 0x100_0000;
    hash / 256 * 256 + XorBytes(hash % 256, b)
  }

  /** `wrapping_mul` by the FNV prime. */
  function TimesPrime(hash: U32): U32 {
    hash * 0x0100_0193 % TWO_32
  }

  function FnvStep(hash: U32, b: Byte): U32 {
    TimesPrime(XorLow(hash, b))
  }

  function FnvFrom(hash: U32, bytes: seq<Byte>): U32
    decreases bytes
  {
    if bytes == [] then hash else FnvFrom(FnvStep(hash, bytes[0]), bytes[1..])
  }

  method Fnv1a(bytes: seq<Byte>) returns (hash: U32)
    ensures hash == FnvFrom(OFFSET_BASIS, bytes)
  {
    hash := OFFSET_BASIS;
    assert bytes[0..] == bytes;
    for i := 0 to |bytes|
      invariant FnvFrom(OFFSET_BASIS, bytes) == FnvFrom(hash, bytes[i..])
    {
      assert bytes[i..][1..] == bytes[i + 1..];
      hash := XorLow(hash, bytes[i]);
      hash := TimesPrime(hash);
    }
  }

  /** The prime is odd: multiplying by its inverse modulo 2^32 undoes a multiplication. */
  lemma PrimeHasInverse(h: U32)
    ensures TimesPrime(h) * 0x359C_449B % TWO_32 == h
  {
    var q := h * 0x0100_0193 / TWO_32;
    var t := h * 0x359c99 - q * 0x359C_449B;
    InverseExpanded(h, q, TimesPrime(h), t);
    WholeTurns(h, t);
  }

  lemma InverseExpanded(h: int, q: int, r: int, t: int)
    requires r == h * 0x0100_0193 - q * 0x1_0000_0000 && t == h * 0x359c99 - q * 0x359C_449B
    ensures r * 0x359C_449B == h + t * 0x1_0000_0000
  {
  }

  lemma WholeTurns(h: U32, t: int)
    ensures (h + t * TWO_32) % TWO_32 == h
  {
  }

  lemma {:induction false} XorBitsIsInjective(a: nat, b: nat, c: nat, bits: nat)
    requires a < Power2(bits) && b < Power2(bits)
    ensures XorBits(a, c, bits) == XorBits(b, c, bits) ==> a == b
    ensures XorBits(c, a, bits) == XorBits(c, b, bits) ==> a == b
  {
    if bits > 0 {
      XorBitsIsInjective(a / 2, b / 2, c / 2, bits - 1);
      LowBitIsInjective(a % 2, b % 2, c % 2);
    }
  }

  lemma LowBitIsInjective(a: nat, b: nat, c: nat)
    requires a < 2 && b < 2 && c < 2
    ensures (a + c) % 2 == (b + c) % 2 ==> a == b
  {
  }

  lemma XorBytesIsInjective(a: Byte, b: Byte, c: Byte)
    ensures XorBytes(a, c) == XorBytes(b, c) ==> a == b
    ensures XorBytes(c, a) == XorBytes(c, b) ==> a == b
  {
    XorBitsIsInjective(a, b, c, 8);
    hide XorBits;
  }

  lemma XorLowIsInjective(h: U32, k: U32, a: Byte, b: Byte)
    ensures XorLow(h, a) == XorLow(k, a) ==> h == k
    ensures XorLow(h, a) == XorLow(h, b) ==> a == b
  {
    hide XorBytes;
    XorBytesIsInjective(h % 256, k % 256, a);
    XorBytesIsInjective(a, b, h % 256);
    if XorLow(h, a) == XorLow(k, a) {
      assert XorLow(h, a) / 256 == h / 256 && XorLow(k, a) / 256 == k / 256;
    }
  }

  /** A step is injective in the hash so far, and in the byte. */
  lemma {:induction false} StepIsInjective(h: U32, k: U32, a: Byte, b: Byte)
    ensures FnvStep(h, a) == FnvStep(k, a) ==> h == k
    ensures FnvStep(h, a) == FnvStep(h, b) ==> a == b
  {
    hide TimesPrime, XorLow;
    PrimeHasInverse(XorLow(h, a));
    PrimeHasInverse(XorLow(k, a));
    PrimeHasInverse(XorLow(h, b));
    XorLowIsInjective(h, k, a, b);
  }

  lemma {:induction false} HashKeepsApart(h: U32, k: U32, bytes: seq<Byte>)
    requires h != k
    ensures FnvFrom(h, bytes) != FnvFrom(k, bytes)
    decreases bytes
  {
    hide FnvStep;
    if bytes != [] {
      StepIsInjective(h, k, bytes[0], bytes[0]);
      HashKeepsApart(FnvStep(h, bytes[0]), FnvStep(k, bytes[0]), bytes[1..]);
    }
  }

  /** Inputs that differ in exactly one byte have different hashes. */
  lemma {:induction false} OneByteChangesHash(h: U32, before: seq<Byte>, a: Byte, b: Byte, behind: seq<Byte>)
    requires a != b
    ensures FnvFrom(h, before + [a] + behind) != FnvFrom(h, before + [b] + behind)
    decreases before
  {
    hide FnvStep;
    var x, y := before + [a] + behind, before + [b] + behind;
    if before == [] {
      assert x[1..] == behind && y[1..] == behind;
      StepIsInjective(h, h, a, b);
      HashKeepsApart(FnvStep(h, a), FnvStep(h, b), behind);
    } else {
      assert x[1..] == before[1..] + [a] + behind && y[1..] == before[1..] + [b] + behind;
      OneByteChangesHash(FnvStep(h, before[0]), before[1..], a, b, behind);
    }
  }

  // ----- names -----

  function HexDigit(v: int): char
    requires 0 <= v < 16
  {
    if v < 10 then '0' + v as char else 'a' + (v - 10) as char
  }

  /** The last `n` hexadecimal digits of `h`. */
  function HexDigits(h: nat, n: nat): (s: string)
    ensures |s| == n && forall i :: 0 <= i < n ==> IsWireChar(s[i])
  {
    if n == 0 then [] else HexDigits(h / 16, n - 1) + [HexDigit(h % 16)]
  }

  function Power16(n: nat): nat {
    if n == 0 then 1 else 16 * Power16(n - 1)
  }

  /** Enough digits determine the number. */
  lemma {:induction false} HexIsInjective(h: nat, k: nat, n: nat)
    requires h < Power16(n) && k < Power16(n) && HexDigits(h, n) == HexDigits(k, n)
    ensures h == k
  {
    if n > 0 {
      var x, y := HexDigits(h, n), HexDigits(k, n);
      assert x[n - 1] == y[n - 1];
      assert x[..n - 1] == HexDigits(h / 16, n - 1) && y[..n - 1] == HexDigits(k / 16, n - 1);
      HexIsInjective(h / 16, k / 16, n - 1);
    }
  }

  /** The number eight digits or any others stand for. */
  function HexValue(s: string): nat {
    if s == [] then 0 else 16 * HexValue(s[..|s| - 1]) + DigitOf(s[|s| - 1])
  }

  function DigitOf(c: char): nat {
    if '0' <= c <= '9' then c as int - '0' as int else if 'a' <= c <= 'f' then c as int - 'a' as int + 10 else 0
  }

  /** Read from the left, the digits are those of the number. */
  lemma {:induction false} HexReadsBack(h: nat, n: nat)
    requires h < Power16(n)
    ensures HexValue(HexDigits(h, n)) == h
  {
    if n > 0 {
      HexReadsBack(h / 16, n - 1);
      assert HexDigits(h, n)[..n - 1] == HexDigits(h / 16, n - 1);
      assert DigitOf(HexDigit(h % 16)) == h % 16;
    }
  }

  lemma EightReadBack(h: U32)
    ensures HexValue(HexDigits(h, 8)) == h
  {
    PowerOfEight();
    hide HexDigits, HexValue;
    HexReadsBack(h, 8);
  }

  lemma PowerOfEight()
    ensures Power16(8) == TWO_32
  {
    assert Power16(2) == 256;
    assert Power16(4) == 65536;
    assert Power16(6) == 16777216;
  }

  /** Two published hashes of this function: of nothing, and of `a`. */
  lemma KnownHashes()
    ensures FnvFrom(OFFSET_BASIS, []) == 0x811C_9DC5
    ensures FnvFrom(OFFSET_BASIS, [97]) == 0xE40C_292C
  {
    LowBytesOfBoth();
    hide XorBits;
    assert FnvStep(OFFSET_BASIS, 97) == 0xE40C_292C;
    hide FnvStep;
    var text: seq<Byte> := [97];
    assert text[1..] == [];
  }

  lemma LowBytesOfBoth()
    ensures XorBits(0xC5, 97, 8) == 0xA4
  {
    assert XorBits(3, 1, 2) == 2;
    assert XorBits(12, 6, 4) == 10;
    assert XorBits(49, 24, 6) == 41;
    assert XorBits(98, 48, 7) == 82;
  }

  function RawName(server: string, tool: string): string {
    server + "_" + tool
  }

  /** `bridge_tool_name`, with `{hash:08x}` as eight digits. */
  function WireName(raw: string): string {
    var name := WireChars(raw);
    if |name| > MAX_TOOL_NAME then
      name[..MAX_TOOL_NAME - 9] + "_" + HexDigits(FnvFrom(OFFSET_BASIS, Encode(raw)), 8)
    else name
  }

  /** A character that is kept: a letter, a digit, an underscore or a dash; anything else becomes
      an underscore. */
  predicate Kept(c: char, w: char) {
    if 'a' <= c <= 'z' || 'A' <= c <= 'Z' || '0' <= c <= '9' || c in "_-" then w == c else w == '_'
  }

  /** `name` starts with the first `n` characters of `raw`, each kept or replaced. */
  predicate KeptUpTo(raw: string, name: string, n: nat) {
    n <= |raw| && n <= |name| && forall i :: 0 <= i < n ==> Kept(raw[i], name[i])
  }

  method BridgeToolName(server: string, tool: string) returns (name: string)
    ensures name == WireName(RawName(server, tool))
    ensures 1 <= |name| <= 64 && forall i :: 0 <= i < |name| ==> IsWireChar(name[i])
    ensures var raw := server + "_" + tool;
            name == raw <==> |raw| <= 64 && forall i :: 0 <= i < |raw| ==> IsWireChar(raw[i])
    ensures var raw := server + "_" + tool;
            if |raw| <= 64 then |name| == |raw| && KeptUpTo(raw, name, |raw|)
            else |name| == 64 && KeptUpTo(raw, name, 55) && name[55] == '_'
                 && HexValue(name[56..]) == FnvFrom(OFFSET_BASIS, Encode(raw))
  {
    hide FnvFrom, Encode;
    var raw := RawName(server, tool);
    name := WireChars(raw);
    if |name| > MAX_TOOL_NAME {
      var hash := Fnv1a(Encode(raw));
      name := name[..MAX_TOOL_NAME - 9];
      EightReadBack(hash);
      hide HexDigits, HexValue;
      assert (name + "_" + HexDigits(hash, 8))[56..] == HexDigits(hash, 8);
      name := name + "_" + HexDigits(hash, 8);
    }
  }

  /** Two over-long raw names that differ in exactly one byte get different wire names. */
  lemma {:induction false} LongSiblingsStayDistinct(raw: string, other: string, before: seq<Byte>,
                                                a: Byte, b: Byte, behind: seq<Byte>)
    requires |raw| > MAX_TOOL_NAME && |other| > MAX_TOOL_NAME && a != b
    requires Encode(raw) == before + [a] + behind && Encode(other) == before + [b] + behind
    ensures WireName(raw) != WireName(other)
  {
    var h, k := FnvFrom(OFFSET_BASIS, Encode(raw)), FnvFrom(OFFSET_BASIS, Encode(other));
    OneByteChangesHash(OFFSET_BASIS, before, a, b, behind);
    assert h != k;
    hide FnvFrom, HexDigits, Encode;
    if WireName(raw) == WireName(other) {
      assert WireName(raw)[56..] == HexDigits(h, 8) && WireName(other)[56..] == HexDigits(k, 8);
      EightDigits(h, k);
    }
  }

  lemma EightDigits(h: U32, k: U32)
    requires HexDigits(h, 8) == HexDigits(k, 8)
    ensures h == k
  {
    hide HexDigits;
    PowerOfEight();
    HexIsInjective(h, k, 8);
  }
}
