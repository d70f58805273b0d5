/** Strings as the crate sees them: sequences of Unicode scalar values whose
    lengths and offsets are counted in UTF-8 bytes. */
module Text {

  datatype Option<+T> = None | Some(value: T)

  datatype Result<+T, +E> = Ok(value: T) | Err(error: E)

  /** Bytes one scalar value takes in UTF-8 (RFC 3629, section 3). */
  function Utf8Width(c: char): (w: nat)
    ensures 1 <= w <= 4
  {
    if c as int < 0x80 then 1 else if c as int < 0x800 then 2 else if c as int < 0x1_0000 then 3 else 4
  }

  /** The byte length of `s` in UTF-8. */
  function ByteLen(s: string): nat {
    if s == [] then 0 else Utf8Width(s[0]) + ByteLen(s[1..])
  }

  lemma {:induction false} ByteLenConcat(a: string, b: string)
    ensures ByteLen(a + b) == ByteLen(a) + ByteLen(b)
  {
    if a == [] {
      assert a + b == b;
    } else {
      assert (a + b)[1..] == a[1..] + b;
      ByteLenConcat(a[1..], b);
    }
  }

  /** True when byte offset `b` lies between two characters of `s`, or at an end. */
  predicate IsCharBoundary(s: string, b: nat) {
    b == 0 || (s != [] && Utf8Width(s[0]) <= b && IsCharBoundary(s[1..], b - Utf8Width(s[0])))
  }

  /** The number of characters before byte offset `b`. */
  function CharsBefore(s: string, b: nat): (k: nat)
    requires IsCharBoundary(s, b)
    ensures k <= |s|
  {
    if b == 0 then 0 else 1 + CharsBefore(s[1..], b - Utf8Width(s[0]))
  }

  // ----- searching and trimming -----

  /** `pat` occurs in `s` at index `i`. */
  predicate OccursAt(s: string, pat: string, i: nat) {
    i + |pat| <= |s| && s[i..i + |pat|] == pat
  }

  /** `str::find`: where `pat` first occurs. */
  function Find(s: string, pat: string): (r: Option<nat>)
    ensures r.Some? ==> OccursAt(s, pat, r.value) && forall j :: 0 <= j < r.value ==> !OccursAt(s, pat, j)
    ensures r.None? ==> forall j :: 0 <= j ==> !OccursAt(s, pat, j)
  {
    FindFrom(s, pat, 0)
  }

  function FindFrom(s: string, pat: string, from: nat): (r: Option<nat>)
    requires from <= |s|
    ensures r.Some? ==> from <= r.value && OccursAt(s, pat, r.value)
                        && forall j :: from <= j < r.value ==> !OccursAt(s, pat, j)
    ensures r.None? ==> forall j :: from <= j ==> !OccursAt(s, pat, j)
    decreases |s| - from
  {
    if OccursAt(s, pat, from) then Some(from)
    else if from == |s| then None
    else FindFrom(s, pat, from + 1)
  }

  /** In a prefix, a first occurrence is found as soon as it is complete. */
  lemma FindInPrefix(s: string, pat: string, n: nat)
    requires n <= |s| && Find(s, pat).Some?
    ensures Find(s[..n], pat) == if Find(s, pat).value + |pat| <= n then Find(s, pat) else None
  {
    forall j: nat | j + |pat| <= n ensures OccursAt(s[..n], pat, j) <==> OccursAt(s, pat, j) {
      assert s[..n][j..j + |pat|] == s[j..j + |pat|];
    }
  }

  /** Unicode White_Space, as `char::is_whitespace` has it. */
  predicate IsWhitespace(c: char) {
    var v := c as int;
    9 <= v <= 13 || v == 32 || v == 0x85 || v == 0xA0 || v == 0x1680 || 0x2000 <= v <= 0x200A
    || v == 0x2028 || v == 0x2029 || v == 0x202F || v == 0x205F || v == 0x3000
  }

  /** How many whitespace characters `s` starts with. */
  function LeadingSpace(s: string): (k: nat)
    ensures k <= |s| && (forall i :: 0 <= i < k ==> IsWhitespace(s[i]))
    ensures k < |s| ==> !IsWhitespace(s[k])
  {
    if s != [] && IsWhitespace(s[0]) then 1 + LeadingSpace(s[1..]) else 0
  }

  function TrimStart(s: string): string {
    s[LeadingSpace(s)..]
  }

  function TrimEnd(s: string): (t: string)
    ensures |t| <= |s|
  {
    if s != [] && IsWhitespace(s[|s| - 1]) then TrimEnd(s[..|s| - 1]) else s
  }

  /** `str::trim`. */
  function Trim(s: string): (t: string)
    ensures |t| <= |s|
  {
    TrimEnd(TrimStart(s))
  }

  predicate Trimmed(s: string) {
    s == [] || (!IsWhitespace(s[0]) && !IsWhitespace(s[|s| - 1]))
  }

  lemma TrimKeeps(s: string)
    requires Trimmed(s)
    ensures Trim(s) == s && TrimStart(s) == s
  {
  }

  predicate AllBlank(s: string) {
    forall i :: 0 <= i < |s| ==> IsWhitespace(s[i])
  }

  /** Trimming takes exactly the blanks around a text. */
  lemma {:induction false} TrimTakesBlanks(before: string, s: string, behind: string)
    requires AllBlank(before) && AllBlank(behind) && s != [] && Trimmed(s)
    ensures Trim(before + (s + behind)) == s
  {
    StartTaken(before, s + behind);
    EndTaken(s, behind);
    hide TrimStart, TrimEnd, IsWhitespace;
  }

  lemma {:induction false} StartTaken(before: string, s: string)
    requires AllBlank(before) && s != [] && !IsWhitespace(s[0])
    ensures TrimStart(before + s) == s
  {
    if before == [] {
      assert before + s == s;
    } else {
      assert (before + s)[1..] == before[1..] + s;
      StartTaken(before[1..], s);
    }
  }

  lemma {:induction false} EndTaken(s: string, behind: string)
    requires AllBlank(behind) && s != [] && !IsWhitespace(s[|s| - 1])
    ensures TrimEnd(s + behind) == s
  {
    if behind == [] {
      assert s + behind == s;
    } else {
      var n := |behind| - 1;
      assert (s + behind)[..|s| + n] == s + behind[..n];
      EndTaken(s, behind[..n]);
    }
  }

  function StartsWith(s: string, prefix: string): bool {
    |prefix| <= |s| && s[..|prefix|] == prefix
  }

  /** `k` spaces. */
  function Spaces(k: nat): (s: string)
    ensures |s| == k && forall i :: 0 <= i < k ==> s[i] == ' '
  {
    if k == 0 then [] else [' '] + Spaces(k - 1)
  }

  lemma {:induction false} TrimStartSpaces(k: nat, s: string)
    requires s == [] || !IsWhitespace(s[0])
    ensures TrimStart(Spaces(k) + s) == s
  {
    if k == 0 {
      assert Spaces(0) + s == s;
    } else {
      assert (Spaces(k) + s)[1..] == Spaces(k - 1) + s;
      TrimStartSpaces(k - 1, s);
    }
  }

  // ----- decimal numbers -----

  function DigitChar(d: nat): char
    requires d < 10
  {
    '0' + d as char
  }

  predicate IsDigit(c: char) {
    '0' <= c <= '9'
  }

  function DigitValue(c: char): nat
    requires IsDigit(c)
  {
    c as int - '0' as int
  }

  /** A number in decimal, without leading zeros. */
  function Decimal(n: nat): (s: string)
    ensures |s| >= 1 && (forall i :: 0 <= i < |s| ==> IsDigit(s[i]))
    ensures s[0] == '0' ==> n == 0 && |s| == 1
  {
    if n < 10 then [DigitChar(n)] else Decimal(n / 10) + [DigitChar(n % 10)]
  }

  /** The value of a run of digits (anything else counts as 0). */
  function DecimalValue(s: string): nat {
    if s == [] then 0
    else 10 * DecimalValue(s[..|s| - 1]) + if IsDigit(s[|s| - 1]) then DigitValue(s[|s| - 1]) else 0
  }

  lemma {:induction false} DecimalReadsBack(n: nat)
    ensures DecimalValue(Decimal(n)) == n
  {
    if n >= 10 {
      DecimalReadsBack(n / 10);
      assert Decimal(n)[..|Decimal(n)| - 1] == Decimal(n / 10);
    }
  }

  lemma {:induction false} DecimalShort(n: nat, width: nat)
    requires 1 <= width <= 4 && n < [10, 100, 1000, 10_000][width - 1]
    ensures |Decimal(n)| <= width
  {
    if n >= 10 {
      DecimalShort(n / 10, width - 1);
    }
  }

  /** `n` in decimal, padded with zeros to `width`. */
  function ZeroPadded(n: nat, width: nat): string {
    Zeros(if |Decimal(n)| < width then width - |Decimal(n)| else 0) + Decimal(n)
  }

  function Zeros(k: nat): (z: string)
    ensures |z| == k
  {
    if k == 0 then [] else ['0'] + Zeros(k - 1)
  }

  lemma {:induction false} LeadingZero(s: string)
    ensures DecimalValue(['0'] + s) == DecimalValue(s)
  {
    if s != [] {
      assert (['0'] + s)[..|s|] == ['0'] + s[..|s| - 1];
      LeadingZero(s[..|s| - 1]);
    }
  }

  lemma {:induction false} ZerosChangeNothing(k: nat, s: string)
    ensures DecimalValue(Zeros(k) + s) == DecimalValue(s)
  {
    if k == 0 {
      assert Zeros(k) + s == s;
    } else {
      assert Zeros(k) + s == ['0'] + (Zeros(k - 1) + s);
      LeadingZero(Zeros(k - 1) + s);
      ZerosChangeNothing(k - 1, s);
    }
  }

  lemma ZeroPaddedValue(n: nat, width: nat)
    ensures DecimalValue(ZeroPadded(n, width)) == n
    ensures ZeroPadded(n, width) != [] && ZeroPadded(n, width)[0] != '-'
    ensures |Decimal(n)| <= width ==> |ZeroPadded(n, width)| == width
  {
    DecimalReadsBack(n);
    ZerosChangeNothing(if |Decimal(n)| < width then width - |Decimal(n)| else 0, Decimal(n));
  }
}
