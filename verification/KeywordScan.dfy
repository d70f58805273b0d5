/** Finding a standalone keyword in masked text: the search runs over UTF-8 bytes, its hits
    are standalone occurrences in the user's own prose. */
module KeywordScan {
  import opened Text
  import opened Utf8
  import opened MaskScanner

  const ULTRATHINK: string := "ultrathink"
  const ORCHESTRATE: string := "orchestrate"

  /** ASCII letters and digits, by code. */
  predicate IsAlnum(v: int) {
    48 <= v <= 57 || 65 <= v <= 90 || 97 <= v <= 122
  }

  /** Not a letter or digit, nor one of `_ / \ - . :`. */
  predicate IsBoundaryBefore(v: int) {
    !IsAlnum(v) && v != 95 && v != 47 && v != 92 && v != 45 && v != 46 && v != 58
  }

  /** Not a letter or digit, nor one of `_ / \ - . (`. */
  predicate IsBoundaryAfter(v: int) {
    !IsAlnum(v) && v != 95 && v != 47 && v != 92 && v != 45 && v != 46 && v != 40
  }

  predicate IsStandalone(codes: seq<int>, start: nat, len: nat)
    requires start + len <= |codes|
  {
    var end := start + len;
    && (start == 0 || IsBoundaryBefore(codes[start - 1]))
    && (end == |codes|
        || (if codes[end] == 46 then end + 1 == |codes| || !IsAlnum(codes[end + 1])
            else IsBoundaryAfter(codes[end])))
  }

  /** The codes of the characters of `s`. */
  function Codes(s: string): (c: seq<int>)
    ensures |c| == |s| && forall i :: 0 <= i < |s| ==> c[i] == s[i] as int
  {
    seq(|s|, i requires 0 <= i < |s| => s[i] as int)
  }

  predicate Matches(codes: seq<int>, needle: seq<int>, start: nat) {
    start + |needle| <= |codes| && forall j :: 0 <= j < |needle| ==> codes[start + j] == needle[j]
  }

  /** A standalone occurrence of `needle` at `start`. */
  predicate Hit(codes: seq<int>, needle: seq<int>, start: nat) {
    Matches(codes, needle, start) && IsStandalone(codes, start, |needle|)
  }

  /** `contains_keyword`, over bytes. */
  method ContainsKeyword(bytes: seq<Byte>, needle: seq<Byte>) returns (found: bool)
    ensures found <==> exists i :: 0 <= i <= |bytes| && Hit(bytes, needle, i)
  {
    var i := 0;
    while i + |needle| <= |bytes|
      invariant 0 <= i <= |bytes| + 1
      invariant forall j :: 0 <= j < i ==> !Hit(bytes, needle, j)
    {
      var same := bytes[i..i + |needle|] == needle;
      SliceIsMatch(bytes, needle, i);
      if same && IsStandalone(bytes, i, |needle|) {
        assert Hit(bytes, needle, i);
        return true;
      }
      i := i + 1;
    }
    return false;
  }

  lemma SliceIsMatch(codes: seq<int>, needle: seq<int>, i: nat)
    requires i + |needle| <= |codes|
    ensures codes[i..i + |needle|] == needle <==> Matches(codes, needle, i)
  {
    var slice := codes[i..i + |needle|];
    assert forall j :: 0 <= j < |needle| ==> slice[j] == codes[i + j];
  }

  // ----- hits in bytes are hits in characters -----

  predicate IsAscii(s: string) {
    forall i :: 0 <= i < |s| ==> s[i] as int < 0x80
  }

  lemma {:induction false} EncodeConcat(a: string, b: string)
    ensures Encode(a + b) == Encode(a) + Encode(b)
  {
    if a == [] {
      assert a + b == b;
    } else {
      assert (a + b)[1..] == a[1..] + b;
      EncodeConcat(a[1..], b);
    }
  }

  lemma {:induction false} AsciiEncodesToItself(s: string)
    requires IsAscii(s)
    ensures Encode(s) == Codes(s)
  {
    if s != [] {
      AsciiEncodesToItself(s[1..]);
      assert EncodeChar(s[0]) == [s[0] as int];
      assert Codes(s) == [s[0] as int] + Codes(s[1..]);
    }
  }

  /** An ASCII byte is a character of its own. */
  lemma {:induction false} AsciiByteIsChar(s: string, i: nat) returns (k: nat)
    requires i < |Encode(s)| && Encode(s)[i] < 0x80
    ensures k < |s| && ByteLen(s[..k]) == i && s[k] as int == Encode(s)[i]
  {
    var w := Utf8Width(s[0]);
    if i < w {
      k := 0;
    } else {
      var j := AsciiByteIsChar(s[1..], i - w);
      k := j + 1;
      assert s[..k] == [s[0]] + s[1..][..j];
      ByteLenConcat([s[0]], s[1..][..j]);
    }
  }

  /** A byte and a character the boundary tests cannot tell apart. */
  predicate Alike(b: int, c: int) {
    b == c || (b >= 0x80 && c >= 0x80)
  }

  lemma EncodeSplit(s: string, k: nat)
    requires k <= |s|
    ensures Encode(s) == Encode(s[..k]) + Encode(s[k..]) && |Encode(s[..k])| == ByteLen(s[..k])
  {
    EncodeConcat(s[..k], s[k..]);
    assert s[..k] + s[k..] == s;
  }

  lemma FirstByteAlike(c: char)
    ensures Alike(EncodeChar(c)[0], c as int)
  {
  }

  lemma ByteAt(s: string, k: nat)
    requires k < |s|
    ensures ByteLen(s[..k]) < |Encode(s)| && Alike(Encode(s)[ByteLen(s[..k])], s[k] as int)
    ensures s[k] as int < 0x80 ==> ByteLen(s[..k + 1]) == ByteLen(s[..k]) + 1
  {
    EncodeSplit(s, k);
    FirstByteAlike(s[k]);
    hide EncodeChar, Alike;
    assert Encode(s)[ByteLen(s[..k])] == Encode(s[k..])[0] == EncodeChar(s[k])[0];
    assert s[..k + 1] == s[..k] + [s[k]];
    ByteLenConcat(s[..k], [s[k]]);
  }

  lemma {:induction false} ByteBefore(s: string, k: nat)
    requires 0 < k <= |s|
    ensures 0 < ByteLen(s[..k]) <= |Encode(s)| && Alike(Encode(s)[ByteLen(s[..k]) - 1], s[k - 1] as int)
  {
    assert s[..k][1..] == s[1..][..k - 1];
    var last := |EncodeChar(s[0])| - 1;
    assert Alike(EncodeChar(s[0])[last], s[0] as int);
    hide EncodeChar;
    if k > 1 {
      ByteBefore(s[1..], k - 1);
    }
  }

  /** A run of ASCII bytes is the same run of characters. */
  lemma {:induction false} MatchedChars(s: string, needle: string, k: nat, i: nat, n: nat)
    requires IsAscii(needle) && k <= |s| && i == ByteLen(s[..k]) && n <= |needle| && i + n <= |Encode(s)|
    requires forall j :: 0 <= j < n ==> Encode(s)[i + j] == needle[j] as int
    ensures k + n <= |s| && ByteLen(s[..k + n]) == i + n
    ensures forall j :: 0 <= j < n ==> s[k + j] == needle[j]
  {
    hide Encode;
    if n > 0 {
      MatchedChars(s, needle, k, i, n - 1);
      OneMoreByte(s, k + (n - 1), i + (n - 1), needle[n - 1]);
    }
  }

  lemma OneMoreByte(s: string, k: nat, i: nat, c: char)
    requires k <= |s| && i == ByteLen(s[..k]) && i < |Encode(s)|
    requires c as int < 0x80 && (Encode(s)[i] == c as int || (k < |s| && s[k] == c))
    ensures k < |s| && s[k] == c && Encode(s)[i] == c as int && ByteLen(s[..k + 1]) == i + 1
  {
    hide Encode;
    assert s[..|s|] == s && |Encode(s)| == ByteLen(s);
    ByteAt(s, k);
  }

  lemma MatchedBytes(s: string, needle: string, k: nat, i: nat, n: nat)
    requires IsAscii(needle) && n <= |needle| && k + n <= |s| && i == ByteLen(s[..k])
    requires forall j :: 0 <= j < n ==> s[k + j] == needle[j]
    ensures ByteLen(s[..k + n]) == i + n <= |Encode(s)|
    ensures forall j :: 0 <= j < n ==> Encode(s)[i + j] == needle[j] as int
  {
    hide *;
    EncodeSplit(s, k + n);
    AsciiBytes(s, needle, k, n);
    forall j | 0 <= j < n ensures Encode(s)[i + j] == needle[j] as int {
      AsciiBytes(s, needle, k, j);
      ByteAt(s, k + j);
      AsciiAt(needle, j);
      OneMoreByte(s, k + j, i + j, needle[j]);
    }
  }

  lemma AsciiAt(s: string, j: nat)
    requires IsAscii(s) && j < |s|
    ensures s[j] as int < 0x80
  {
  }

  /** ASCII characters take a byte each. */
  lemma {:induction false} AsciiBytes(s: string, needle: string, k: nat, n: nat)
    requires IsAscii(needle) && n <= |needle| && k + n <= |s|
    requires forall j :: 0 <= j < n ==> s[k + j] == needle[j]
    ensures ByteLen(s[..k + n]) == ByteLen(s[..k]) + n
  {
    hide *;
    if n > 0 {
      AsciiBytes(s, needle, k, n - 1);
      AsciiAt(needle, n - 1);
      ByteAt(s, k + n - 1);
    }
  }

  /** Bytes and characters that are alike around two places stand alone alike there. */
  lemma AlikeAround(a: seq<int>, b: seq<int>, i: nat, k: nat, len: nat)
    requires i + len <= |a| && k + len <= |b| && (i == 0 <==> k == 0)
    requires k > 0 ==> Alike(a[i - 1], b[k - 1])
    requires AlikeFrom(a, b, i + len, k + len)
    requires k + len < |b| && b[k + len] == 46 ==> AlikeFrom(a, b, i + len + 1, k + len + 1)
    ensures IsStandalone(a, i, len) <==> IsStandalone(b, k, len)
  {
  }

  /** Both end here, or go on alike. */
  predicate AlikeFrom(a: seq<int>, b: seq<int>, i: nat, k: nat) {
    if k < |b| then i < |a| && Alike(a[i], b[k]) else i == |a| && k == |b|
  }

  lemma BytesFrom(s: string, k: nat)
    requires k <= |s|
    ensures AlikeFrom(Encode(s), Codes(s), ByteLen(s[..k]), k)
  {
    hide Encode, Codes, ByteLen, Alike;
    if k < |s| {
      ByteAt(s, k);
    } else {
      assert s[..k] == s;
    }
  }

  lemma BytesBefore(s: string, k: nat)
    requires k <= |s|
    ensures k == 0 <==> ByteLen(s[..k]) == 0
    ensures k > 0 ==> ByteLen(s[..k]) <= |Encode(s)| && Alike(Encode(s)[ByteLen(s[..k]) - 1], Codes(s)[k - 1])
  {
    assert s[..0] == [] && ByteLen([]) == 0;
    hide *;
    if k > 0 { ByteBefore(s, k); }
  }

  lemma BytesBehindDot(s: string, k: nat)
    requires k <= |s|
    ensures k < |s| && Codes(s)[k] == 46 ==> AlikeFrom(Encode(s), Codes(s), ByteLen(s[..k]) + 1, k + 1)
  {
    hide *;
    if k < |s| {
      ByteAt(s, k);
      BytesFrom(s, k + 1);
    }
  }

  /** Standing alone among the bytes is standing alone among the characters. */
  lemma StandaloneMatches(s: string, k: nat, i: nat, len: nat)
    requires k + len <= |s| && i == ByteLen(s[..k]) && ByteLen(s[..k + len]) == i + len <= |Encode(s)|
    ensures IsStandalone(Encode(s), i, len) <==> IsStandalone(Codes(s), k, len)
  {
    hide *;
    BytesBefore(s, k);
    BytesFrom(s, k + len);
    BytesBehindDot(s, k + len);
    AlikeAround(Encode(s), Codes(s), i, k, len);
  }

  lemma ByteMatchIsCharMatch(s: string, needle: string, k: nat, i: nat)
    requires IsAscii(needle) && k <= |s| && i == ByteLen(s[..k]) && Matches(Encode(s), Codes(needle), i)
    ensures Matches(Codes(s), Codes(needle), k)
    ensures k + |needle| <= |s| && ByteLen(s[..k + |needle|]) == i + |needle| <= |Encode(s)|
  {
    hide Encode, Codes, IsAscii, ByteLen;
    forall j | 0 <= j < |needle| ensures Encode(s)[i + j] == needle[j] as int {
      assert Codes(needle)[j] == needle[j] as int;
    }
    MatchedChars(s, needle, k, i, |needle|);
    forall j | 0 <= j < |needle| ensures Codes(s)[k + j] == Codes(needle)[j] {
      assert s[k + j] == needle[j];
    }
  }

  lemma CharMatchIsByteMatch(s: string, needle: string, k: nat, i: nat)
    requires IsAscii(needle) && k <= |s| && i == ByteLen(s[..k]) && Matches(Codes(s), Codes(needle), k)
    ensures Matches(Encode(s), Codes(needle), i)
    ensures k + |needle| <= |s| && ByteLen(s[..k + |needle|]) == i + |needle| <= |Encode(s)|
  {
    hide Encode, Codes, IsAscii, ByteLen;
    forall j | 0 <= j < |needle| ensures s[k + j] == needle[j] {
      assert Codes(s)[k + j] == Codes(needle)[j];
    }
    MatchedBytes(s, needle, k, i, |needle|);
    forall j | 0 <= j < |needle| ensures Encode(s)[i + j] == Codes(needle)[j] {
      assert Encode(s)[i + j] == needle[j] as int;
    }
  }

  /** The byte search hits exactly at the character hits. */
  lemma HitMatches(s: string, needle: string, k: nat)
    requires IsAscii(needle) && k <= |s|
    ensures Hit(Encode(s), Codes(needle), ByteLen(s[..k])) <==> Hit(Codes(s), Codes(needle), k)
  {
    hide Matches, IsStandalone, Encode, Codes, ByteLen, IsAscii;
    var i := ByteLen(s[..k]);
    if Matches(Encode(s), Codes(needle), i) {
      ByteMatchIsCharMatch(s, needle, k, i);
      StandaloneMatches(s, k, i, |needle|);
    } else if Matches(Codes(s), Codes(needle), k) {
      CharMatchIsByteMatch(s, needle, k, i);
    }
  }

  // ----- hits in the masked text are hits in the user's prose -----

  /** A standalone occurrence of `needle` at `k` that lies in the prose of `s`. */
  predicate InProse(s: string, needle: string, k: nat) {
    Hit(Codes(s), Codes(needle), k) && AllProse(s, k, k + |needle|)
  }

  /** A keyword: ASCII, without white space. */
  predicate IsKeyword(needle: string) {
    needle != [] && IsAscii(needle) && ' ' !in needle && '\n' !in needle
  }

  lemma MatchIsProse(s: string, needle: string, k: nat)
    requires IsKeyword(needle)
    ensures Matches(Codes(Mask(s, 0)), Codes(needle), k) <==>
              Matches(Codes(s), Codes(needle), k) && AllProse(s, k, k + |needle|)
  {
    hide Mask, Prose, Codes, IsAscii;
    var m := Mask(s, 0);
    if k + |needle| <= |s| {
      forall j | 0 <= j < |needle|
        ensures m[k + j] == needle[j] <==> s[k + j] == needle[j] && Prose(s, 0, k + j)
      {
        MaskAt(s, 0, k + j);
        assert needle[j] in needle;
      }
      if Matches(Codes(m), Codes(needle), k) {
        forall j | 0 <= j < |needle| ensures m[k + j] == needle[j] {
          assert Codes(m)[k + j] == Codes(needle)[j];
        }
        forall j | k <= j < k + |needle| ensures Prose(s, 0, j) {
          assert m[k + (j - k)] == needle[j - k];
        }
        assert AllProse(s, k, k + |needle|);
      }
      if Matches(Codes(s), Codes(needle), k) && AllProse(s, k, k + |needle|) {
        forall j | 0 <= j < |needle| ensures Codes(m)[k + j] == Codes(needle)[j] {
          assert Codes(s)[k + j] == Codes(needle)[j];
          assert Prose(s, 0, k + j);
          assert m[k + j] == needle[j];
        }
      }
    }
  }

  /** Masked neighbours and the marks they hide are boundaries alike. */
  lemma StandaloneInProse(s: string, k: nat, len: nat)
    requires len > 0 && k + len <= |s| && s[k] != '\n'
    requires Prose(s, 0, k) && Prose(s, 0, k + len - 1)
    ensures IsStandalone(Codes(Mask(s, 0)), k, len) <==> IsStandalone(Codes(s), k, len)
  {
    hide Mask, Prose, Codes;
    var end := k + len;
    ProseBorders(s, 0, k);
    ProseBorders(s, 0, end - 1);
    if k > 0 { MaskAt(s, 0, k - 1); }
    if end < |s| {
      MaskAt(s, 0, end);
      if end + 1 < |s| {
        MaskAt(s, 0, end + 1);
        if Prose(s, 0, end) { ProseBorders(s, 0, end); }
      }
    }
  }

  lemma FirstMatches(s: string, needle: string, k: nat)
    requires IsKeyword(needle) && Matches(Codes(s), Codes(needle), k) && AllProse(s, k, k + |needle|)
    ensures k + |needle| <= |s| && s[k] != '\n' && Prose(s, 0, k) && Prose(s, 0, k + |needle| - 1)
  {
    hide Prose, Codes, IsAscii;
    assert Codes(s)[k + 0] == Codes(needle)[0] && needle[0] in needle;
  }

  lemma HitIsInProse(s: string, needle: string, k: nat)
    requires IsKeyword(needle)
    ensures Hit(Codes(Mask(s, 0)), Codes(needle), k) <==> InProse(s, needle, k)
  {
    hide Mask, Prose, IsStandalone, IsAscii, Codes;
    MatchIsProse(s, needle, k);
    hide Matches;
    if Matches(Codes(s), Codes(needle), k) && AllProse(s, k, k + |needle|) {
      FirstMatches(s, needle, k);
      StandaloneInProse(s, k, |needle|);
    }
  }

  lemma HitIsAtChar(s: string, needle: string, i: nat) returns (k: nat)
    requires IsKeyword(needle) && Hit(Encode(s), Codes(needle), i)
    ensures k <= |s| && ByteLen(s[..k]) == i
  {
    hide Encode, IsStandalone;
    assert Encode(s)[i + 0] == Codes(needle)[0];
    k := AsciiByteIsChar(s, i);
  }

  /** The prose of `text` holds `keyword` as a standalone word. */
  ghost predicate StandsInProse(text: string, keyword: string) {
    exists k :: 0 <= k <= |text| && InProse(text, keyword, k)
  }

  /** One keyword of `scan`: it hits if and only if the prose of the text holds the keyword
      as a standalone word. */
  method ScanFor(text: string, keyword: string) returns (found: bool)
    requires IsKeyword(keyword)
    ensures found <==> StandsInProse(text, keyword)
  {
    hide Mask, Hit, Encode, Codes, InProse, IsAscii;
    var masked := MaskNonProse(text);
    AsciiEncodesToItself(keyword);
    found := ContainsKeyword(Encode(masked), Encode(keyword));
    if found {
      var i :| 0 <= i <= |Encode(masked)| && Hit(Encode(masked), Codes(keyword), i);
      var k := HitIsAtChar(masked, keyword, i);
      HitMatches(masked, keyword, k);
      HitIsInProse(text, keyword, k);
    } else {
      forall k | 0 <= k <= |text| ensures !InProse(text, keyword, k) {
        HitMatches(masked, keyword, k);
        HitIsInProse(text, keyword, k);
        EncodeSplit(masked, k);
      }
    }
  }

  /** `scan`: each keyword that is switched on is reported exactly when it stands in prose. */
  method Scan(text: string, enabled: bool, wantUltrathink: bool, wantOrchestrate: bool)
    returns (ultrathink: bool, orchestrate: bool)
    ensures ultrathink <==> enabled && wantUltrathink && StandsInProse(text, "ultrathink")
    ensures orchestrate <==> enabled && wantOrchestrate && StandsInProse(text, "orchestrate")
  {
    ultrathink, orchestrate := false, false;
    if enabled {
      if wantUltrathink { ultrathink := ScanFor(text, ULTRATHINK); }
      if wantOrchestrate { orchestrate := ScanFor(text, ORCHESTRATE); }
    }
  }
}
