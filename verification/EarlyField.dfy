/** Reading a string field out of JSON arguments that are still streaming in. */
module EarlyField {
  import opened Text

  /** The character an escape stands for; `\u` is not decoded here. */
  function Unescaped(c: char): char
    requires c != 'u'
  {
    if c == 'n' then '\n' else if c == 'r' then '\r' else if c == 't' then '\t' else c
  }

  /** The string up to its closing quote, or `None` while that has not arrived (or at `\u`). */
  function ScanString(s: string): Option<string>
    decreases |s|
  {
    if s == [] then None
    else if s[0] == '"' then Some([])
    else if s[0] == '\\' then
      if |s| < 2 || s[1] == 'u' then None
      else After([Unescaped(s[1])], ScanString(s[2..]))
    else After([s[0]], ScanString(s[1..]))
  }

  /** The offset behind the first `pat` at or after `from`. */
  function Behind(buf: string, pat: string, from: nat): (r: Option<nat>)
    requires from <= |buf|
    ensures r.Some? ==> from + |pat| <= r.value <= |buf|
  {
    match Find(buf[from..], pat)
    case None => None
    case Some(at) => Some(from + at + |pat|)
  }

  /** The offset behind the first `"field"` and the first `:` after it. */
  function BehindColon(buf: string, field: string): (r: Option<nat>)
    ensures r.Some? ==> r.value <= |buf|
  {
    match Behind(buf, "\"" + field + "\"", 0)
    case None => None
    case Some(key) => Behind(buf, ":", key)
  }

  /** Where the value starts: behind the colon, whitespace and the opening quote. */
  function Opening(buf: string, field: string): (r: Option<nat>)
    ensures r.Some? ==> r.value <= |buf|
  {
    match BehindColon(buf, field)
    case None => None
    case Some(from) => BehindQuote(buf, from)
  }

  function BehindQuote(buf: string, from: nat): (r: Option<nat>)
    requires from <= |buf|
    ensures r.Some? ==> from < r.value <= |buf|
  {
    var quote := from + LeadingSpace(buf[from..]);
    if quote < |buf| && buf[quote] == '"' then Some(quote + 1) else None
  }

  /** The field's value, as soon as it is complete. */
  function Field(buf: string, field: string): Option<string> {
    match Opening(buf, field)
    case None => None
    case Some(at) => ScanString(buf[at..])
  }

  /** `extract_json_string_field`. */
  method ExtractJsonStringField(buf: string, field: string) returns (r: Option<string>)
    ensures r == Field(buf, field)
  {
    var opening := Opening(buf, field);
    if opening.None? {
      return None;
    }
    var rest := buf[opening.value..];
    var i, out := 0, "";
    assert rest[0..] == rest && (forall o :: "" + o == o);
    while i < |rest|
      invariant 0 <= i <= |rest|
      invariant ScanString(rest) == After(out, ScanString(rest[i..]))
    {
      var c := rest[i];
      if c == '\\' {
        if i + 1 == |rest| || rest[i + 1] == 'u' {
          return None;
        }
        AfterOne(out, Unescaped(rest[i + 1]), ScanString(rest[i + 2..]));
        assert rest[i..][2..] == rest[i + 2..];
        out := out + [Unescaped(rest[i + 1])];
        i := i + 2;
      } else if c == '"' {
        assert out + [] == out;
        return Some(out);
      } else {
        AfterOne(out, c, ScanString(rest[i + 1..]));
        assert rest[i..][1..] == rest[i + 1..];
        out := out + [c];
        i := i + 1;
      }
    }
    return None;
  }

  /** `out` followed by what is still to be scanned. */
  function After(out: string, more: Option<string>): Option<string> {
    match more case None => None case Some(o) => Some(out + o)
  }

  lemma AfterOne(out: string, c: char, more: Option<string>)
    ensures After(out, After([c], more)) == After(out + [c], more)
  {
    if more.Some? { assert out + ([c] + more.value) == out + [c] + more.value; }
  }

  // ----- what a complete value looks like -----

  /** One element of a written string: a plain character or a simple escape. */
  datatype Piece = Plain(c: char) | Escape(c: char) {
    predicate Fits() {
      match this
      case Plain(c) => c != '"' && c != '\\'
      case Escape(c) => c != 'u'
    }
  }

  predicate AllFit(pieces: seq<Piece>) {
    forall i :: 0 <= i < |pieces| ==> pieces[i].Fits()
  }

  function Written(pieces: seq<Piece>): string {
    if pieces == [] then []
    else (match pieces[0] case Plain(c) => [c] case Escape(c) => ['\\', c]) + Written(pieces[1..])
  }

  function Meaning(pieces: seq<Piece>): string
    requires AllFit(pieces)
  {
    if pieces == [] then []
    else [match pieces[0] case Plain(c) => c case Escape(c) => Unescaped(c)] + Meaning(pieces[1..])
  }

  lemma {:induction false} ScanWritten(pieces: seq<Piece>, tail: string)
    requires AllFit(pieces)
    ensures ScanString(Written(pieces) + "\"" + tail) == Some(Meaning(pieces))
  {
    var s := Written(pieces) + "\"" + tail;
    if pieces != [] {
      ScanWritten(pieces[1..], tail);
      var n := if pieces[0].Plain? then 1 else 2;
      assert s[n..] == Written(pieces[1..]) + "\"" + tail;
    }
  }

  /** Without its closing quote, or any part of it, a written string scans to nothing. */
  lemma {:induction false} ScanUnfinished(pieces: seq<Piece>, n: nat)
    requires AllFit(pieces) && n <= |Written(pieces)|
    ensures ScanString(Written(pieces)[..n]) == None
  {
    var s := Written(pieces)[..n];
    if pieces != [] && n > 0 {
      var k := if pieces[0].Plain? then 1 else 2;
      if n >= k {
        ScanUnfinished(pieces[1..], n - k);
        assert s[k..] == Written(pieces[1..])[..n - k];
        assert After([s[0]], None) == None && After([pieces[0].c], None) == None;
      } else {
        assert s == "\\";
      }
    }
  }

  /** At an escape with `\u` the scan gives up, whatever follows. */
  lemma {:induction false} UnicodeEscapeIsNotRead(pieces: seq<Piece>, more: string)
    requires AllFit(pieces)
    ensures ScanString(Written(pieces) + ("\\u" + more)) == None
  {
    var s := Written(pieces) + ("\\u" + more);
    if pieces != [] {
      UnicodeEscapeIsNotRead(pieces[1..], more);
      var n := if pieces[0].Plain? then 1 else 2;
      assert s[n..] == Written(pieces[1..]) + ("\\u" + more);
      assert After([s[0]], None) == None && After([pieces[0].c], None) == None;
    } else {
      assert s == "\\u" + more;
    }
  }

  /** So a field with one in its string is never read, however much of it has arrived. */
  lemma FieldWithUnicodeEscape(buf: string, field: string, pieces: seq<Piece>, more: string)
    requires AllFit(pieces) && Opening(buf, field).Some?
    requires buf[Opening(buf, field).value..] == Written(pieces) + ("\\u" + more)
    ensures Field(buf, field) == None
  {
    UnicodeEscapeIsNotRead(pieces, more);
    hide Opening, ScanString;
  }

  /** Whatever scans is some written string followed by a closing quote. */
  lemma {:induction false} ScannedIsWritten(s: string) returns (pieces: seq<Piece>, tail: string)
    requires ScanString(s).Some?
    ensures AllFit(pieces) && s == Written(pieces) + "\"" + tail && ScanString(s) == Some(Meaning(pieces))
    decreases |s|
  {
    if s[0] == '"' {
      pieces, tail := [], s[1..];
    } else {
      var first, n := if s[0] == '\\' then Escape(s[1]) else Plain(s[0]), if s[0] == '\\' then 2 else 1;
      var more;
      more, tail := ScannedIsWritten(s[n..]);
      pieces := [first] + more;
      assert pieces[1..] == more;
      assert s == s[..n] + s[n..];
    }
  }

  // ----- streaming -----

  lemma BehindInPrefix(buf: string, pat: string, from: nat, n: nat)
    requires from <= n <= |buf| && Behind(buf, pat, from).Some?
    ensures Behind(buf[..n], pat, from) == if Behind(buf, pat, from).value <= n then Behind(buf, pat, from) else None
  {
    FindInPrefix(buf[from..], pat, n - from);
    assert buf[..n][from..] == buf[from..][..n - from];
  }

  lemma BehindColonInPrefix(buf: string, field: string, n: nat)
    requires n <= |buf| && BehindColon(buf, field).Some?
    ensures BehindColon(buf[..n], field) == if BehindColon(buf, field).value <= n then BehindColon(buf, field) else None
  {
    hide Behind;
    var key := "\"" + field + "\"";
    BehindInPrefix(buf, key, 0, n);
    var from := Behind(buf, key, 0).value;
    if from <= n { BehindInPrefix(buf, ":", from, n); }
  }

  /** In a prefix the opening is found as soon as it is complete, at the same place. */
  lemma OpeningInPrefix(buf: string, field: string, n: nat)
    requires n <= |buf| && Opening(buf, field).Some?
    ensures Opening(buf[..n], field) == if Opening(buf, field).value <= n then Opening(buf, field) else None
  {
    BehindColonInPrefix(buf, field, n);
    var from := BehindColon(buf, field).value;
    hide BehindColon, BehindQuote;
    if from <= n { QuoteInPrefix(buf, from, n); }
  }

  lemma QuoteInPrefix(buf: string, from: nat, n: nat)
    requires from <= n <= |buf| && BehindQuote(buf, from).Some?
    ensures BehindQuote(buf[..n], from) == if BehindQuote(buf, from).value <= n then BehindQuote(buf, from) else None
  {
    SpaceInPrefix(buf[from..], n - from);
    assert buf[..n][from..] == buf[from..][..n - from];
  }

  lemma {:induction false} SpaceInPrefix(s: string, n: nat)
    requires n <= |s|
    ensures LeadingSpace(s[..n]) == if LeadingSpace(s) <= n then LeadingSpace(s) else n
  {
    if n > 0 && IsWhitespace(s[0]) {
      SpaceInPrefix(s[1..], n - 1);
      assert s[..n][1..] == s[1..][..n - 1];
    }
  }

  /** A prefix of a buffer whose value is written as `pieces` from offset `at`. */
  lemma FieldOfPrefix(buf: string, field: string, at: nat, pieces: seq<Piece>, tail: string, n: nat)
    requires Opening(buf, field) == Some(at) && AllFit(pieces)
    requires buf[at..] == Written(pieces) + "\"" + tail && n <= |buf|
    ensures Field(buf[..n], field) == if n < at + |Written(pieces)| + 1 then None else Some(Meaning(pieces))
  {
    OpeningInPrefix(buf, field, n);
    hide Opening, ScanString, Written, Meaning, AllFit;
    if at <= n {
      var m := n - at;
      assert buf[..n][at..] == buf[at..][..m];
      if m <= |Written(pieces)| {
        ScanUnfinished(pieces, m);
        assert buf[at..][..m] == Written(pieces)[..m];
      } else {
        var k := m - |Written(pieces)| - 1;
        ScanWritten(pieces, tail[..k]);
        assert buf[at..][..m] == Written(pieces) + "\"" + tail[..k];
      }
    }
  }

  /** A value appears with its closing quote and then never changes: whenever a buffer yields
      a value, one prefix length separates the prefixes that yield nothing from those that
      yield exactly this value. */
  lemma {:induction false} FieldIsStable(buf: string, field: string) returns (k: nat)
    requires Field(buf, field).Some?
    ensures 0 < k <= |buf| && buf[k - 1] == '"'
    ensures forall n :: 0 <= n <= |buf| ==> Field(buf[..n], field) == if n < k then None else Field(buf, field)
  {
    var at := Opening(buf, field).value;
    var pieces, tail := ScannedIsWritten(buf[at..]);
    hide Opening, ScanString;
    k := at + |Written(pieces)| + 1;
    forall n | 0 <= n <= |buf| ensures Field(buf[..n], field) == if n < k then None else Field(buf, field) {
      FieldOfPrefix(buf, field, at, pieces, tail, n);
    }
    assert buf[k - 1] == buf[at..][k - 1 - at];
  }

  lemma OpeningStays(buf: string, field: string, more: string)
    requires Opening(buf, field).Some?
    ensures Opening(buf + more, field) == Opening(buf, field)
  {
    var from := BehindColon(buf, field).value;
    hide BehindColon, BehindQuote;
    ColonStays(buf, field, more);
    QuoteStays(buf, from, more);
  }

  lemma ColonStays(buf: string, field: string, more: string)
    requires BehindColon(buf, field).Some?
    ensures BehindColon(buf + more, field) == BehindColon(buf, field)
  {
    BehindStays(buf, "\"" + field + "\"", 0, more);
    BehindStays(buf, ":", Behind(buf, "\"" + field + "\"", 0).value, more);
    hide Behind;
  }

  lemma QuoteStays(buf: string, from: nat, more: string)
    requires from <= |buf| && BehindQuote(buf, from).Some?
    ensures BehindQuote(buf + more, from) == BehindQuote(buf, from)
  {
    SpaceInPrefix((buf + more)[from..], |buf| - from);
    assert (buf + more)[from..][..|buf| - from] == buf[from..];
    hide LeadingSpace;
  }

  lemma BehindStays(buf: string, pat: string, from: nat, more: string)
    requires from <= |buf| && Behind(buf, pat, from).Some?
    ensures Behind(buf + more, pat, from) == Behind(buf, pat, from)
  {
    var s, all := buf[from..], (buf + more)[from..];
    var at := Find(s, pat).value;
    assert all == s + more && all[at..at + |pat|] == s[at..at + |pat|];
    assert OccursAt(all, pat, at);
    FindInPrefix(all, pat, |s|);
    assert all[..|s|] == s;
  }

  lemma ScanStays(s: string, more: string)
    requires ScanString(s).Some?
    ensures ScanString(s + more) == ScanString(s)
  {
    var pieces, tail := ScannedIsWritten(s);
    hide ScanString, Written;
    ScanWritten(pieces, tail + more);
    assert s + more == Written(pieces) + "\"" + (tail + more);
  }

  /** Whatever follows a buffer that yields a value, the value stays. */
  lemma {:induction false} FieldStays(buf: string, field: string, more: string)
    requires Field(buf, field).Some?
    ensures Field(buf + more, field) == Field(buf, field)
  {
    hide Opening, ScanString;
    OpeningStays(buf, field, more);
    var at := Opening(buf, field).value;
    ScanStays(buf[at..], more);
    assert (buf + more)[at..] == buf[at..] + more;
  }

  /** Everything up to and including the opening quote of a field. */
  function Introduced(head: string, field: string, gap: string, space: string): string {
    KeyAndColon(head, field, gap) + space + "\""
  }

  function KeyAndColon(head: string, field: string, gap: string): string {
    head + ("\"" + field + "\"") + gap + ":"
  }

  /** A field written in the ordinary way: nothing on every prefix that ends before the
      closing quote, the unescaped string on every longer one, whatever the buffer holds
      before the key and after the value. */
  lemma {:induction false} StreamedField(head: string, field: string, gap: string, space: string, pieces: seq<Piece>,
                      tail: string, n: nat)
    requires AllFit(pieces) && ':' !in gap && (forall i :: 0 <= i < |space| ==> IsWhitespace(space[i]))
    requires var buf := Introduced(head, field, gap, space) + (Written(pieces) + "\"" + tail);
             Find(buf, "\"" + field + "\"") == Some(|head|) && n <= |buf|
    ensures var open := Introduced(head, field, gap, space);
            Field((open + (Written(pieces) + "\"" + tail))[..n], field)
            == if n <= |open + Written(pieces)| then None else Some(Meaning(pieces))
  {
    var open, value := Introduced(head, field, gap, space), Written(pieces) + "\"" + tail;
    WrittenOpening(head, field, gap, space, value);
    hide Introduced, Opening, Field;
    assert (open + value)[|open|..] == value;
    FieldOfPrefix(open + value, field, |open|, pieces, tail, n);
  }

  lemma WrittenOpening(head: string, field: string, gap: string, space: string, value: string)
    requires ':' !in gap && (forall i :: 0 <= i < |space| ==> IsWhitespace(space[i]))
    requires Find(Introduced(head, field, gap, space) + value, "\"" + field + "\"") == Some(|head|)
    ensures Opening(Introduced(head, field, gap, space) + value, field) == Some(|Introduced(head, field, gap, space)|)
  {
    var front, buf := KeyAndColon(head, field, gap), Introduced(head, field, gap, space) + value;
    hide KeyAndColon, BehindColon, LeadingSpace;
    assert buf == front + (space + "\"" + value);
    WrittenColon(head, field, gap, space + "\"" + value);
    assert buf[|front|..] == space + ("\"" + value);
    SpaceLength(space, "\"" + value);
  }

  lemma WrittenColon(head: string, field: string, gap: string, more: string)
    requires ':' !in gap
    requires Find(KeyAndColon(head, field, gap) + more, "\"" + field + "\"") == Some(|head|)
    ensures BehindColon(KeyAndColon(head, field, gap) + more, field) == Some(|KeyAndColon(head, field, gap)|)
  {
    var key, buf := "\"" + field + "\"", KeyAndColon(head, field, gap) + more;
    var behindKey := |head| + |key|;
    assert buf[0..] == buf;
    assert Behind(buf, key, 0) == Some(behindKey);
    assert buf[behindKey..] == gap + ":" + more;
    FirstColon(gap, more);
  }

  lemma FirstColon(gap: string, more: string)
    requires ':' !in gap
    ensures Find(gap + ":" + more, ":") == Some(|gap|)
  {
    var s := gap + ":" + more;
    assert OccursAt(s, ":", |gap|);
    forall j | 0 <= j < |gap| ensures !OccursAt(s, ":", j) {
      assert s[j] == gap[j];
    }
  }

  lemma {:induction false} SpaceLength(space: string, more: string)
    requires (forall i :: 0 <= i < |space| ==> IsWhitespace(space[i])) && more != [] && !IsWhitespace(more[0])
    ensures LeadingSpace(space + more) == |space|
  {
    if space == [] {
      assert space + more == more;
    } else {
      assert (space + more)[1..] == space[1..] + more;
      SpaceLength(space[1..], more);
    }
  }
}
