/** JSON Pointer (RFC 6901): the writer of the crate, and the reading of sections 3 and 4
    it has to agree with. */
module JsonPointer {
  import opened Text
  import opened Json

  /** `str::replace` of one character. */
  function ReplaceChar(s: string, c: char, with: string): string {
    if s == [] then [] else (if s[0] == c then with else [s[0]]) + ReplaceChar(s[1..], c, with)
  }

  /** `escape`: `~` becomes `~0`, then `/` becomes `~1`. */
  function Escape(segment: string): string {
    ReplaceChar(ReplaceChar(segment, '~', "~0"), '/', "~1")
  }

  /** Pointer text of a path of reference tokens, as `walk` builds it. */
  function PathString(tokens: seq<string>): string {
    if tokens == [] then [] else PathString(tokens[..|tokens| - 1]) + "/" + Escape(tokens[|tokens| - 1])
  }

  // ----- reading, by the RFC -----

  /** Every `~` followed by `digit` becomes `c`, left to right (section 4). */
  function DecodePair(s: string, digit: char, c: char): string
    decreases |s|
  {
    if |s| >= 2 && s[0] == '~' && s[1] == digit then [c] + DecodePair(s[2..], digit, c)
    else if s == [] then []
    else [s[0]] + DecodePair(s[1..], digit, c)
  }

  /** First `~1` to `/`, then `~0` to `~`. */
  function Unescape(token: string): string {
    DecodePair(DecodePair(token, '1', '/'), '0', '~')
  }

  function SplitSlash(s: string): (parts: seq<string>)
    ensures |parts| >= 1
  {
    if s == [] then [[]]
    else
      var rest := SplitSlash(s[1..]);
      if s[0] == '/' then [[]] + rest else [[s[0]] + rest[0]] + rest[1..]
  }

  function UnescapeAll(parts: seq<string>): seq<string> {
    if parts == [] then [] else [Unescape(parts[0])] + UnescapeAll(parts[1..])
  }

  /** Section 3: empty, or every token behind a `/`. */
  function ParsePointer(pointer: string): Option<seq<string>> {
    if pointer == [] then Some([])
    else if pointer[0] == '/' then Some(UnescapeAll(SplitSlash(pointer[1..])))
    else None
  }

  /** An array index: digits without a leading zero. */
  predicate IsIndex(token: string) {
    token != [] && (forall i :: 0 <= i < |token| ==> IsDigit(token[i])) && (token[0] == '0' ==> |token| == 1)
  }

  /** The member or element a token names. */
  function StepInto(v: Value, token: string): Option<Value> {
    match v
    case Obj(fields) => if token in fields then Some(fields[token]) else None
    case Arr(items) =>
      if IsIndex(token) && DecimalValue(token) < |items| then Some(items[DecimalValue(token)]) else None
    case _ => None
  }

  /** Section 4: evaluation from the root. */
  function Evaluate(v: Value, tokens: seq<string>): Option<Value>
    decreases tokens
  {
    if tokens == [] then Some(v)
    else match StepInto(v, tokens[0])
      case None => None
      case Some(sub) => Evaluate(sub, tokens[1..])
  }

  // ----- the writer and the reading agree -----

  function EscapeEach(s: string): string {
    if s == [] then []
    else (if s[0] == '~' then "~0" else if s[0] == '/' then "~1" else [s[0]]) + EscapeEach(s[1..])
  }

  lemma {:induction false} ReplaceCharConcat(a: string, b: string, c: char, with: string)
    ensures ReplaceChar(a + b, c, with) == ReplaceChar(a, c, with) + ReplaceChar(b, c, with)
  {
    if a == [] {
      assert a + b == b;
    } else {
      assert (a + b)[1..] == a[1..] + b;
      ReplaceCharConcat(a[1..], b, c, with);
    }
  }

  lemma {:induction false} EscapeIsEach(s: string)
    ensures Escape(s) == EscapeEach(s)
  {
    if s != [] {
      EscapeIsEach(s[1..]);
      var head := if s[0] == '~' then "~0" else [s[0]];
      ReplaceCharConcat(head, ReplaceChar(s[1..], '~', "~0"), '/', "~1");
      assert ReplaceChar(head, '/', "~1") == if s[0] == '~' then "~0" else if s[0] == '/' then "~1" else [s[0]] by {
        if s[0] == '~' { assert "~0"[1..] == "0" && "0"[1..] == ""; }
      }
    }
  }

  lemma {:induction false} EscapedHasNoSlash(s: string)
    ensures '/' !in EscapeEach(s)
  {
    if s != [] { EscapedHasNoSlash(s[1..]); }
  }

  lemma {:induction false} DecodeOnes(s: string)
    ensures DecodePair(EscapeEach(s), '1', '/') == ReplaceChar(s, '~', "~0")
  {
    if s != [] {
      var rest := EscapeEach(s[1..]);
      DecodeOnes(s[1..]);
      if s[0] == '~' {
        assert EscapeEach(s)[1..] == "0" + rest && ("0" + rest)[1..] == rest;
      } else if s[0] == '/' {
        assert EscapeEach(s)[2..] == rest;
      } else {
        assert EscapeEach(s)[1..] == rest;
      }
    }
  }

  lemma {:induction false} DecodeZeros(s: string)
    ensures DecodePair(ReplaceChar(s, '~', "~0"), '0', '~') == s
  {
    if s != [] {
      var rest := ReplaceChar(s[1..], '~', "~0");
      DecodeZeros(s[1..]);
      if s[0] == '~' {
        assert ReplaceChar(s, '~', "~0")[2..] == rest;
      } else {
        assert ReplaceChar(s, '~', "~0")[1..] == rest;
      }
    }
  }

  /** Unescaping undoes escaping, for every token. */
  lemma UnescapeOfEscape(s: string)
    ensures Unescape(Escape(s)) == s
  {
    EscapeIsEach(s);
    DecodeOnes(s);
    DecodeZeros(s);
  }

  lemma {:induction false} SplitWithoutSlash(a: string)
    requires '/' !in a
    ensures SplitSlash(a) == [a]
  {
    if a != [] {
      SplitWithoutSlash(a[1..]);
      assert [a[0]] + a[1..] == a;
    }
  }

  lemma {:induction false} SplitAtSlash(a: string, b: string)
    requires '/' !in a
    ensures SplitSlash(a + "/" + b) == [a] + SplitSlash(b)
  {
    var s := a + "/" + b;
    if a == [] {
      assert s[1..] == b;
    } else {
      SplitAtSlash(a[1..], b);
      assert s[1..] == a[1..] + "/" + b;
      assert [a[0]] + a[1..] == a;
      assert ([a[1..]] + SplitSlash(b))[1..] == SplitSlash(b);
    }
  }

  /** The pointer text of `tokens` read from the front. */
  function PathFromFront(tokens: seq<string>): string {
    if tokens == [] then [] else "/" + Escape(tokens[0]) + PathFromFront(tokens[1..])
  }

  lemma {:induction false} PathFrontBack(tokens: seq<string>)
    ensures PathString(tokens) == PathFromFront(tokens)
  {
    hide Escape;
    if tokens != [] {
      var init, last := tokens[..|tokens| - 1], tokens[|tokens| - 1];
      PathFrontBack(init);
      PathFrontAppend(init, last);
      assert tokens == init + [last];
    }
  }

  lemma {:induction false} PathFrontAppend(tokens: seq<string>, last: string)
    ensures PathFromFront(tokens + [last]) == PathFromFront(tokens) + "/" + Escape(last)
  {
    hide Escape;
    if tokens == [] {
      assert tokens + [last] == [last] && [last][1..] == [];
    } else {
      assert (tokens + [last])[1..] == tokens[1..] + [last];
      PathFrontAppend(tokens[1..], last);
    }
  }

  lemma OneToken(token: string)
    ensures UnescapeAll(SplitSlash(Escape(token))) == [token]
  {
    UnescapeOfEscape(token);
    EscapeIsEach(token);
    EscapedHasNoSlash(token);
    SplitWithoutSlash(Escape(token));
    hide Escape, Unescape, SplitSlash;
    assert [Escape(token)][1..] == [];
  }

  lemma OneTokenMore(token: string, more: string)
    ensures UnescapeAll(SplitSlash(Escape(token) + "/" + more)) == [token] + UnescapeAll(SplitSlash(more))
  {
    UnescapeOfEscape(token);
    EscapeIsEach(token);
    EscapedHasNoSlash(token);
    SplitAtSlash(Escape(token), more);
    hide Escape, Unescape, SplitSlash;
    assert ([Escape(token)] + SplitSlash(more))[1..] == SplitSlash(more);
  }

  lemma {:induction false} ParsePathFromFront(tokens: seq<string>)
    requires tokens != []
    ensures UnescapeAll(SplitSlash(PathFromFront(tokens)[1..])) == tokens
  {
    hide Escape, Unescape, SplitSlash, UnescapeAll;
    var head, tail := Escape(tokens[0]), PathFromFront(tokens[1..]);
    if |tokens| == 1 {
      assert PathFromFront(tokens)[1..] == head;
      OneToken(tokens[0]);
    } else {
      ParsePathFromFront(tokens[1..]);
      var body := tail[1..];
      assert PathFromFront(tokens)[1..] == head + "/" + body;
      OneTokenMore(tokens[0], body);
    }
  }

  /** What `walk` writes as a path is the RFC 6901 pointer of exactly those tokens. */
  lemma ParseOfPathString(tokens: seq<string>)
    ensures ParsePointer(PathString(tokens)) == Some(tokens)
  {
    PathFrontBack(tokens);
    if tokens != [] { ParsePathFromFront(tokens); }
  }

  /** A lone `/` names the member with the empty name, not the whole document. */
  lemma SlashAlone()
    ensures ParsePointer("/") == Some([""])
  {
    OneToken("");
    assert Escape("") == "" && "/"[1..] == "";
  }

  /** Indices have one spelling. */
  lemma {:induction false} IndexSpelling(token: string)
    requires IsIndex(token)
    ensures Decimal(DecimalValue(token)) == token
  {
    var n := |token| - 1;
    if n == 0 {
      assert token[..0] == [];
    } else {
      IndexSpelling(token[..n]);
      PositiveValue(token[..n]);
      assert token == token[..n] + [token[n]];
    }
  }

  lemma {:induction false} PositiveValue(token: string)
    requires IsIndex(token) && token[0] != '0'
    ensures DecimalValue(token) > 0
  {
    if |token| > 1 { PositiveValue(token[..|token| - 1]); }
  }

  lemma DecimalIsIndex(n: nat)
    ensures IsIndex(Decimal(n)) && DecimalValue(Decimal(n)) == n
  {
    DecimalReadsBack(n);
  }
}
