/** Reading a number field, and the whole window of a read, out of streaming JSON arguments. */
module EarlyNumber {
  import opened Text
  import opened EarlyField

  const DEFAULT_LIMIT: nat := 400
  const HARD_LIMIT: nat := 2000
  const MAX_U64: nat := 0xFFFF_FFFF_FFFF_FFFF

  /** How many digits `s` starts with. */
  function DigitCount(s: string): (n: nat)
    ensures n <= |s| && (n < |s| ==> !IsDigit(s[n]))
  {
    if s != [] && IsDigit(s[0]) then 1 + DigitCount(s[1..]) else 0
  }

  function Digits(s: string): string {
    s[..DigitCount(s)]
  }

  /** `digits.parse::<u64>()`, `None` for no digits or too large a number. */
  function Parsed(digits: string): Option<nat> {
    if digits == [] || DecimalValue(digits) > MAX_U64 then None else Some(DecimalValue(digits))
  }

  /** What stands behind the field's colon. */
  function ValueText(buf: string, field: string): Option<string> {
    match BehindColon(buf, field)
    case None => None
    case Some(from) => Some(TrimStart(buf[from..]))
  }

  function NumberField(buf: string, field: string): Option<nat> {
    match ValueText(buf, field)
    case None => None
    case Some(rest) => Parsed(Digits(rest))
  }

  /** `extract_json_u64_field`. */
  method ExtractJsonU64Field(buf: string, field: string) returns (r: Option<nat>)
    ensures r == NumberField(buf, field)
  {
    var behind := ValueText(buf, field);
    if behind.None? {
      return None;
    }
    hide *;
    var digits := ReadDigits(behind.value);
    DigitsParsed(buf, field, behind.value);
    if digits == [] {
      return None;
    }
    r := Parsed(digits);
  }

  /** The digit loop. */
  method ReadDigits(rest: string) returns (digits: string)
    ensures digits == Digits(rest)
  {
    hide DigitCount, IsDigit;
    digits := "";
    var i := 0;
    assert rest[0..] == rest;
    while i < |rest|
      invariant i <= |rest| && digits == rest[..i]
      invariant DigitCount(rest) == i + DigitCount(rest[i..])
    {
      NextDigit(rest, i);
      if !IsDigit(rest[i]) {
        break;
      }
      digits := digits + [rest[i]];
      i := i + 1;
    }
  }

  lemma DigitsParsed(buf: string, field: string, rest: string)
    requires ValueText(buf, field) == Some(rest)
    ensures NumberField(buf, field) == Parsed(Digits(rest)) && Parsed("") == None
  {
    hide ValueText, Digits, DecimalValue;
  }

  lemma NextDigit(s: string, i: nat)
    requires i < |s|
    ensures DigitCount(s[i..]) == if IsDigit(s[i]) then 1 + DigitCount(s[i + 1..]) else 0
  {
    assert s[i..][1..] == s[i + 1..];
  }

  /** A character other than a digit stands behind the digits. */
  predicate Settled(buf: string, field: string) {
    ValueText(buf, field).Some? && DigitCount(ValueText(buf, field).value) < |ValueText(buf, field).value|
  }

  lemma ValueTextGrows(buf: string, field: string, more: string)
    requires ValueText(buf, field).Some? && ValueText(buf, field).value != []
    ensures ValueText(buf + more, field) == Some(ValueText(buf, field).value + more)
  {
    hide BehindColon, TrimStart;
    ColonStays(buf, field, more);
    var from := BehindColon(buf, field).value;
    assert (buf + more)[from..] == buf[from..] + more;
    TrimGrows(buf[from..], more);
  }

  lemma TrimGrows(s: string, more: string)
    requires TrimStart(s) != []
    ensures TrimStart(s + more) == TrimStart(s) + more
  {
    SpaceStays(s, more);
  }

  lemma {:induction false} SpaceStays(s: string, more: string)
    requires LeadingSpace(s) < |s|
    ensures LeadingSpace(s + more) == LeadingSpace(s)
  {
    assert (s + more)[1..] == s[1..] + more;
    if IsWhitespace(s[0]) {
      SpaceStays(s[1..], more);
    }
  }

  lemma {:induction false} CountStays(s: string, more: string)
    ensures DigitCount(s + more) == if DigitCount(s) < |s| then DigitCount(s) else |s| + DigitCount(more)
  {
    if s == [] {
      assert s + more == more;
    } else {
      assert (s + more)[1..] == s[1..] + more;
      CountStays(s[1..], more);
    }
  }

  lemma DigitsStay(s: string, more: string)
    ensures Digits(s + more) == if DigitCount(s) < |s| then Digits(s) else s + Digits(more)
  {
    CountStays(s, more);
  }

  /** A number that was read is final exactly when its digits are known to have ended: before
      that, one more digit makes it another number. */
  lemma {:induction false} NumberIsFinal(buf: string, field: string)
    requires NumberField(buf, field).Some?
    ensures (forall more :: NumberField(buf + more, field) == NumberField(buf, field)) <==> Settled(buf, field)
  {
    hide ValueText, DigitCount;
    var rest := ValueText(buf, field).value;
    forall more ensures NumberField(buf + more, field) == Parsed(Digits(rest + more)) {
      ValueTextGrows(buf, field, more);
    }
    if Settled(buf, field) {
      forall more ensures NumberField(buf + more, field) == NumberField(buf, field) {
        DigitsStay(rest, more);
      }
    } else {
      assert Digits(rest) == rest;
      DigitsStay(rest, "1");
      OneMoreDigit(rest);
      assert NumberField(buf + "1", field) != NumberField(buf, field);
    }
  }

  lemma OneMoreDigit(digits: string)
    requires Parsed(digits).Some?
    ensures Digits("1") == "1" && Parsed(digits + "1") != Parsed(digits)
  {
    assert (digits + "1")[..|digits|] == digits;
    assert "1"[1..] == "";
  }

  // ----- a written number -----

  predicate AllDigits(s: string) {
    forall i :: 0 <= i < |s| ==> IsDigit(s[i])
  }

  lemma {:induction false} DigitsOf(number: string, tail: string)
    requires AllDigits(number) && (tail == [] || !IsDigit(tail[0]))
    ensures Digits(number + tail) == number
  {
    if number == [] {
      assert number + tail == tail;
    } else {
      assert (number + tail)[1..] == number[1..] + tail;
      DigitsOf(number[1..], tail);
      assert (number[1..] + tail)[..|number| - 1] == number[1..];
    }
  }

  /** A field written with a number in digits is read as that number, if 64 bits hold it, whatever
      the buffer holds before the key and behind the digits; without digits it is not read. */
  lemma {:induction false} WrittenNumber(head: string, field: string, gap: string, space: string, number: string,
                                         tail: string)
    requires ':' !in gap && (forall i :: 0 <= i < |space| ==> IsWhitespace(space[i]))
    requires AllDigits(number) && number + tail != [] && (tail == [] || !IsDigit(tail[0]))
    requires number == [] ==> !IsWhitespace(tail[0])
    requires var buf := KeyAndColon(head, field, gap) + (space + (number + tail));
             Find(buf, "\"" + field + "\"") == Some(|head|)
    ensures NumberField(KeyAndColon(head, field, gap) + (space + (number + tail)), field)
            == if number == [] || DecimalValue(number) > 18_446_744_073_709_551_615 then None
               else Some(DecimalValue(number))
  {
    var rest := number + tail;
    var buf := KeyAndColon(head, field, gap) + (space + rest);
    DigitsAreSolid(number);
    assert buf[|KeyAndColon(head, field, gap)|..] == space + rest;
    DigitsOf(number, tail);
    hide BehindColon, KeyAndColon, LeadingSpace, IsWhitespace, DecimalValue, Digits, IsDigit;
    WrittenColon(head, field, gap, space + rest);
    SpaceLength(space, rest);
    assert (space + rest)[|space|..] == rest;
  }

  lemma DigitsAreSolid(number: string)
    requires AllDigits(number)
    ensures number != [] ==> !IsWhitespace(number[0])
  {
  }

  /** In particular a number the model writes in decimal. */
  lemma DecimalIsRead(head: string, field: string, gap: string, space: string, n: nat, tail: string)
    requires ':' !in gap && (forall i :: 0 <= i < |space| ==> IsWhitespace(space[i]))
    requires tail == [] || !IsDigit(tail[0])
    requires n < 0x1_0000_0000_0000_0000
    requires var buf := KeyAndColon(head, field, gap) + (space + (Decimal(n) + tail));
             Find(buf, "\"" + field + "\"") == Some(|head|)
    ensures NumberField(KeyAndColon(head, field, gap) + (space + (Decimal(n) + tail)), field) == Some(n)
  {
    DecimalReadsBack(n);
    hide *;
    DecimalDigits(n);
    WrittenNumber(head, field, gap, space, Decimal(n), tail);
  }

  lemma DecimalDigits(n: nat)
    ensures AllDigits(Decimal(n))
  {
  }

  /** `try_parse_read_args`: a path that is not blank, and a window within the limits of a read. */
  method TryParseReadArgs(buf: string) returns (r: Option<(string, nat, nat)>)
    ensures r.Some? <==> Field(buf, "path").Some? && Trim(Field(buf, "path").value) != []
    ensures r.Some? ==> r.value.0 == Trim(Field(buf, "path").value)
    ensures r.Some? ==> match NumberField(buf, "offset")
                        case Some(n) => r.value.1 >= 1 && r.value.1 >= n && r.value.1 in {1, n}
                        case None => r.value.1 == 1
    ensures r.Some? ==> match NumberField(buf, "limit")
                        case Some(n) => 1 <= r.value.2 <= 2000 && r.value.2 in {1, n, 2000}
                                        && (1 <= n <= 2000 ==> r.value.2 == n) && (n == 0 ==> r.value.2 == 1)
                        case None => r.value.2 == 400
  {
    hide Field, NumberField, Trim;
    var path := ExtractJsonStringField(buf, "path");
    if path.None? || Trim(path.value) == [] {
      return None;
    }
    var offset := ExtractJsonU64Field(buf, "offset");
    var limit := ExtractJsonU64Field(buf, "limit");
    var from := match offset case Some(n) => if n < 1 then 1 else n case None => 1;
    var count := match limit
      case Some(n) => if n < 1 then 1 else if n > HARD_LIMIT then HARD_LIMIT else n
      case None => DEFAULT_LIMIT;
    r := Some((Trim(path.value), from, count));
  }
}
