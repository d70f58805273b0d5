/** What the mask makes of a text, in terms of how the text was written: prose between code
    spans, fences and elements. */
module MaskDocument {
  import opened Text
  import opened MaskScanner

  // ----- a scan depends on what is ahead of it only -----

  lemma {:induction false} RunShifts(a: string, s: string, i: nat, tick: char)
    requires i <= |s|
    ensures RunEnd(a + s, |a| + i, tick) == |a| + RunEnd(s, i, tick)
    decreases |s| - i
  {
    if i < |s| { RunShifts(a, s, i + 1, tick); }
  }

  lemma CloseShifts(a: string, s: string, i: nat, tick: char, run: nat)
    ensures FenceClose(a + s, |a| + i, tick, run) == FenceClose(s, i, tick, run)
  {
    if FenceClose(a + s, |a| + i, tick, run) {
      forall k | i <= k < i + run ensures s[k] == tick {
        assert (a + s)[|a| + k] == s[k];
      }
    }
  }

  lemma {:induction false} FenceShifts(a: string, s: string, i: nat, tick: char, run: nat)
    requires i <= |s|
    ensures FenceEnd(a + s, |a| + i, tick, run) == |a| + FenceEnd(s, i, tick, run)
    decreases |s| - i
  {
    hide FenceClose;
    CloseShifts(a, s, i, tick, run);
    if i < |s| { FenceShifts(a, s, i + 1, tick, run); }
  }

  lemma {:induction false} InlineShifts(a: string, s: string, i: nat)
    requires i <= |s|
    ensures InlineEnd(a + s, |a| + i) == |a| + InlineEnd(s, i)
    decreases |s| - i
  {
    if i < |s| { InlineShifts(a, s, i + 1); }
  }

  lemma {:induction false} TagShifts(a: string, s: string, i: nat)
    requires i <= |s|
    ensures TagEnd(a + s, |a| + i) == |a| + TagEnd(s, i)
    decreases |s| - i
  {
    if i < |s| { TagShifts(a, s, i + 1); }
  }

  lemma {:induction false} ElementShifts(a: string, s: string, i: nat)
    requires i <= |s|
    ensures ElementEnd(a + s, |a| + i) == |a| + ElementEnd(s, i)
    decreases |s| - i
  {
    TagShifts(a, s, i);
    hide TagEnd;
    if i < |s| { ElementShifts(a, s, i + 1); }
  }

  lemma RegionShifts(a: string, s: string, i: nat)
    requires i < |s|
    ensures RegionEnd(a + s, |a| + i) == |a| + RegionEnd(s, i)
  {
    hide RunEnd, FenceEnd, InlineEnd, TagEnd, ElementEnd;
    OpenShifts(a, s, i);
    hide FenceOpen, CloseTag;
    if FenceOpen(s, i) {
      var j := RunEnd(s, i, s[i]);
      RunShifts(a, s, i, s[i]);
      FenceShifts(a, s, j, s[i], j - i);
    } else if s[i] == '`' {
      InlineShifts(a, s, i + 1);
    } else if s[i] == '<' {
      TagShifts(a, s, i + 1);
      ElementShifts(a, s, TagEnd(s, i + 1));
    }
  }

  lemma OpenShifts(a: string, s: string, i: nat)
    requires i < |s|
    ensures (a + s)[|a| + i] == s[i]
    ensures FenceOpen(a + s, |a| + i) == FenceOpen(s, i) && CloseTag(a + s, |a| + i) == CloseTag(s, i)
  {
  }

  lemma {:induction false} MaskShifts(a: string, s: string, i: nat)
    requires i <= |s|
    ensures Mask(a + s, |a| + i) == Mask(s, i)
    decreases |s| - i
  {
    hide RegionEnd, Blank;
    if i < |s| {
      var e := RegionEnd(s, i);
      RegionShifts(a, s, i);
      if e == i {
        MaskShifts(a, s, i + 1);
      } else {
        MaskShifts(a, s, e);
        assert (a + s)[|a| + i..|a| + e] == s[i..e];
      }
    }
  }

  /** A region at the start of a text is blanked, and the scan starts afresh behind it. */
  lemma RegionFirst(w: string, rest: string)
    requires w != [] && RegionEnd(w + rest, 0) == |w|
    ensures Mask(w + rest, 0) == Blank(w) + Mask(rest, 0)
  {
    hide RegionEnd, Blank;
    assert (w + rest)[0..|w|] == w;
    MaskShifts(w, rest, 0);
  }

  // ----- where regions end -----

  lemma {:induction false} RunIs(s: string, i: nat, tick: char, j: nat)
    requires i <= j <= |s| && (forall k :: i <= k < j ==> s[k] == tick) && (j < |s| ==> s[j] != tick)
    ensures RunEnd(s, i, tick) == j
    decreases j - i
  {
    if i < j { RunIs(s, i + 1, tick, j); }
  }

  lemma {:induction false} FenceIs(s: string, i: nat, tick: char, run: nat, j: nat)
    requires i <= j <= |s| && (forall k :: i <= k < j ==> !FenceClose(s, k, tick, run))
    requires j == |s| || FenceClose(s, j, tick, run)
    ensures FenceEnd(s, i, tick, run) == if j == |s| then j else j + run
    decreases j - i
  {
    hide FenceClose;
    if i < j { FenceIs(s, i + 1, tick, run, j); }
  }

  /** Inline code ends behind the first backtick of its line, or at the end of the line. */
  lemma {:induction false} InlineIs(s: string, i: nat, j: nat)
    requires i <= j <= |s| && (forall k :: i <= k < j ==> s[k] != '`' && s[k] != '\n')
    requires j == |s| || s[j] == '`' || s[j] == '\n'
    ensures InlineEnd(s, i) == if j < |s| && s[j] == '`' then j + 1 else j
    decreases j - i
  {
    if i < j { InlineIs(s, i + 1, j); }
  }

  lemma {:induction false} TagIs(s: string, i: nat, j: nat)
    requires i <= j <= |s| && (forall k :: i <= k < j ==> s[k] != '>') && (j == |s| || s[j] == '>')
    ensures TagEnd(s, i) == if j == |s| then j else j + 1
    decreases j - i
  {
    if i < j { TagIs(s, i + 1, j); }
  }

  lemma {:induction false} ElementIs(s: string, i: nat, j: nat)
    requires i <= j <= |s| && (forall k :: i <= k < j ==> !CloseTag(s, k)) && (j == |s| || CloseTag(s, j))
    ensures ElementEnd(s, i) == if j == |s| then j else TagEnd(s, j)
    decreases j - i
  {
    hide CloseTag, TagEnd;
    if i < j { ElementIs(s, i + 1, j); }
  }

  // ----- marks, as they are written -----

  lemma FenceOpenIs(s: string, i: nat)
    requires i < |s|
    ensures FenceOpen(s, i) <==> OccursAt(s, "```", i) || OccursAt(s, "~~~", i)
  {
    if i + 2 < |s| {
      assert s[i..i + 3] == [s[i], s[i + 1], s[i + 2]];
    }
  }

  lemma CloseTagIs(s: string, i: nat)
    requires i < |s|
    ensures CloseTag(s, i) <==> OccursAt(s, "</", i)
  {
    if i + 1 < |s| {
      assert s[i..i + 2] == [s[i], s[i + 1]];
    }
  }

  lemma FenceCloseIs(s: string, i: nat, tick: char, n: nat)
    ensures FenceClose(s, i, tick, n) <==> OccursAt(s, Ticks(tick, n), i)
  {
    if i + n <= |s| {
      if FenceClose(s, i, tick, n) {
        assert forall k :: 0 <= k < n ==> s[i..i + n][k] == s[i + k] == Ticks(tick, n)[k];
        assert s[i..i + n] == Ticks(tick, n);
      }
      if OccursAt(s, Ticks(tick, n), i) {
        forall k | i <= k < i + n ensures s[k] == tick {
          assert s[i..i + n][k - i] == Ticks(tick, n)[k - i];
        }
      }
    }
  }

  // ----- documents -----

  /** What a text is written from: prose; code in backticks; a stray backtick and the line it leaves
      open; a fence of `n` ticks around a body; an element around its content; a closing tag. */
  datatype Piece =
    | Prose(text: string)
    | Code(code: string)
    | Stray(code: string)
    | Fenced(tick: char, n: nat, body: string)
    | Element(tag: string, content: string, closing: string)
    | Closing(tag: string)

  /** What a text may break off in. */
  datatype Ending =
    | Complete
    | OpenCode(code: string)
    | OpenFence(tick: char, n: nat, body: string)
    | OpenTag(tag: string)
    | OpenElement(tag: string, content: string)

  function Ticks(tick: char, n: nat): (s: string)
    ensures |s| == n && forall i :: 0 <= i < n ==> s[i] == tick
  {
    if n == 0 then [] else [tick] + Ticks(tick, n - 1)
  }

  function Written(p: Piece): string {
    match p
    case Prose(text) => text
    case Code(code) => "`" + code + "`"
    case Stray(code) => "`" + code + "\n"
    case Fenced(tick, n, body) => Ticks(tick, n) + body + Ticks(tick, n)
    case Element(tag, content, closing) => "<" + tag + ">" + content + ("</" + closing + ">")
    case Closing(tag) => "</" + tag + ">"
  }

  function EndText(e: Ending): string {
    match e
    case Complete => ""
    case OpenCode(code) => "`" + code
    case OpenFence(tick, n, body) => Ticks(tick, n) + body
    case OpenTag(tag) => "<" + tag
    case OpenElement(tag, content) => "<" + tag + ">" + content
  }

  /** `n` ticks in a row nowhere in the body, nor across its end. */
  predicate NoRun(body: string, tick: char, n: nat, behind: string) {
    forall j :: 0 <= j < |body| ==> !OccursAt(body + behind, Ticks(tick, n), j)
  }

  predicate NoTriple(s: string, triple: string) {
    forall j :: 0 <= j < |s| ==> !OccursAt(s, triple, j)
  }

  predicate FenceFits(tick: char, n: nat, body: string) {
    (tick == '`' || tick == '~') && n >= 3 && body != [] && body[0] != tick
  }

  predicate NoClosing(content: string) {
    forall j :: 0 <= j < |content| ==> !OccursAt(content, "</", j)
  }

  predicate OneLine(code: string) {
    '`' !in code && '\n' !in code
  }

  predicate Fits(p: Piece) {
    match p
    case Prose(text) =>
      text != [] && text[|text| - 1] != '~' && '`' !in text && '<' !in text && NoTriple(text, "~~~")
    case Code(code) => code != [] && OneLine(code)
    case Stray(code) => OneLine(code)
    case Fenced(tick, n, body) => FenceFits(tick, n, body) && NoRun(body, tick, n, Ticks(tick, n))
    case Element(tag, content, _) => TagFits(tag) && NoClosing(content) && '>' !in p.closing
    case Closing(tag) => '>' !in tag
  }

  predicate TagFits(tag: string) {
    '>' !in tag && (tag == [] || tag[0] != '/')
  }

  predicate EndFits(e: Ending) {
    match e
    case Complete => true
    case OpenCode(code) => OneLine(code)
    case OpenFence(tick, n, body) => FenceFits(tick, n, body) && NoRun(body, tick, n, "")
    case OpenTag(tag) => '>' !in tag
    case OpenElement(tag, content) => TagFits(tag) && NoClosing(content)
  }

  function Document(pieces: seq<Piece>, e: Ending): string {
    if pieces == [] then EndText(e) else Written(pieces[0]) + Document(pieces[1..], e)
  }

  /** Prose as it is, everything else blanked. */
  function Shown(pieces: seq<Piece>, e: Ending): string {
    if pieces == [] then Blank(EndText(e))
    else (if pieces[0].Prose? then pieces[0].text else Blank(Written(pieces[0]))) + Shown(pieces[1..], e)
  }

  /** The mask of any such text keeps its prose and blanks exactly the rest. */
  lemma {:induction false} DocumentIsMasked(pieces: seq<Piece>, e: Ending)
    requires (forall i :: 0 <= i < |pieces| ==> Fits(pieces[i])) && EndFits(e)
    ensures Mask(Document(pieces, e), 0) == Shown(pieces, e)
  {
    hide Fits, EndFits, Written, EndText, Blank, Mask;
    if pieces == [] {
      EndIsMasked(e);
    } else {
      var rest := Document(pieces[1..], e);
      DocumentIsMasked(pieces[1..], e);
      match pieces[0]
      case Prose(text) => ProseIsKept(text, rest);
      case Code(code) => CodeIsMasked(code, rest);
      case Stray(code) => StrayIsMasked(code, rest);
      case Fenced(tick, n, body) => FenceIsMasked(tick, n, body, rest);
      case Element(tag, content, closing) => ElementIsMasked(tag, content, closing, rest);
      case Closing(tag) => ClosingIsMasked(tag, rest);
    }
  }

  // ----- piece by piece -----

  /** Prose from which no mark can be read. */
  predicate Plain(text: string) {
    '`' !in text && '<' !in text && NoTriple(text, "~~~") && (text != [] ==> text[|text| - 1] != '~')
  }

  lemma {:induction false} PlainIsKept(text: string, rest: string)
    requires Plain(text)
    ensures Mask(text + rest, 0) == text + Mask(rest, 0)
  {
    hide *;
    if text == [] {
      assert text + rest == rest;
    } else {
      PlainHead(text, rest);
      PlainTail(text);
      PlainIsKept(text[1..], rest);
      StepOver(text + rest);
      assert (text + rest)[1..] == text[1..] + rest;
      assert [text[0]] + (text[1..] + Mask(rest, 0)) == text + Mask(rest, 0);
    }
  }

  lemma PlainHead(text: string, rest: string)
    requires Plain(text) && text != []
    ensures RegionEnd(text + rest, 0) == 0
  {
    var s := text + rest;
    assert text[0] in text && !OccursAt(text, "~~~", 0);
    assert !OccursAt(text, "```", 0) by {
      assert |text| >= 3 ==> text[0..3][0] == text[0];
    }
    FenceOpenIs(text, 0);
    hide OccursAt;
    assert s[0] == text[0] && (|text| > 1 ==> s[1] == text[1]) && (|text| > 2 ==> s[2] == text[2]);
  }

  /** A character at which no region starts is kept, and the scan goes on behind it. */
  lemma StepOver(s: string)
    requires s != [] && RegionEnd(s, 0) == 0
    ensures Mask(s, 0) == [s[0]] + Mask(s[1..], 0)
  {
    hide *;
    MaskStep(s, 0);
    MaskShifts(s[..1], s[1..], 0);
    assert s[..1] + s[1..] == s;
  }

  lemma PlainTail(text: string)
    requires Plain(text) && text != []
    ensures Plain(text[1..])
  {
    forall i | 0 <= i < |text| - 1 ensures !OccursAt(text[1..], "~~~", i) {
      assert !OccursAt(text, "~~~", i + 1);
      if i + 3 <= |text| - 1 {
        assert text[1..][i..i + 3] == text[i + 1..i + 4];
      }
    }
  }

  lemma ProseIsKept(text: string, rest: string)
    requires Fits(Prose(text))
    ensures Mask(Written(Prose(text)) + rest, 0) == text + Mask(rest, 0)
  {
    PlainIsKept(text, rest);
  }

  lemma CodeIsMasked(code: string, rest: string)
    requires Fits(Code(code))
    ensures Mask(Written(Code(code)) + rest, 0) == Blank(Written(Code(code))) + Mask(rest, 0)
  {
    var w := Written(Code(code));
    var s := w + rest;
    assert s[0] == '`' && s[1] == code[0] && s[|w| - 1] == '`';
    assert forall k :: 1 <= k < |w| - 1 ==> s[k] == code[k - 1];
    InlineIs(s, 1, |w| - 1);
    hide InlineEnd, Mask, Blank;
    RegionFirst(w, rest);
  }

  /** A stray backtick opens nothing beyond its line. */
  lemma StrayIsMasked(code: string, rest: string)
    requires Fits(Stray(code))
    ensures Mask(Written(Stray(code)) + rest, 0) == Blank(Written(Stray(code))) + Mask(rest, 0)
  {
    var w, below := "`" + code, "\n" + rest;
    StrayText(code, rest);
    assert OneLine(code);
    hide *;
    StrayEnds(code, below);
    RegionFirst(w, below);
    LineBreakIsKept(rest);
    BlankedLine(w);
    Behind(Blank(w), "\n", Mask(rest, 0));
  }

  lemma StrayText(code: string, rest: string)
    ensures Written(Stray(code)) == "`" + code + "\n"
    ensures Written(Stray(code)) + rest == "`" + code + ("\n" + rest)
  {
  }

  lemma StrayEnds(code: string, below: string)
    requires OneLine(code) && below != [] && below[0] == '\n'
    ensures RegionEnd("`" + code + below, 0) == |code| + 1
  {
    var s := "`" + code + below;
    assert s[|code| + 1] == '\n' && s[0] == '`';
    assert forall k :: 1 <= k <= |code| ==> s[k] == code[k - 1];
    InlineIs(s, 1, |code| + 1);
    hide InlineEnd;
  }

  lemma LineBreakIsKept(rest: string)
    ensures Mask("\n" + rest, 0) == "\n" + Mask(rest, 0)
  {
    PlainIsKept("\n", rest);
  }

  lemma BlankedLine(w: string)
    ensures Blank(w + "\n") == Blank(w) + "\n"
  {
    assert (w + "\n")[..|w|] == w;
  }

  lemma FenceIsMasked(tick: char, n: nat, body: string, rest: string)
    requires Fits(Fenced(tick, n, body))
    ensures Mask(Written(Fenced(tick, n, body)) + rest, 0) == Blank(Written(Fenced(tick, n, body))) + Mask(rest, 0)
  {
    var w := Written(Fenced(tick, n, body));
    var s, j := w + rest, n + |body|;
    FenceStarts(tick, n, body, Ticks(tick, n) + rest);
    assert s == Ticks(tick, n) + body + (Ticks(tick, n) + rest);
    assert FenceClose(s, j, tick, n);
    forall k | n <= k < j ensures !FenceClose(s, k, tick, n) {
      assert !OccursAt(body + Ticks(tick, n), Ticks(tick, n), k - n);
      FenceCloseIs(body + Ticks(tick, n), k - n, tick, n);
      NotClosedYet(tick, n, body, rest, k);
    }
    FenceIs(s, n, tick, n, j);
    hide FenceClose, FenceEnd, RunEnd, Mask, Blank;
    RegionFirst(w, rest);
  }

  lemma NotClosedYet(tick: char, n: nat, body: string, rest: string, k: nat)
    requires n <= k < n + |body| && !FenceClose(body + Ticks(tick, n), k - n, tick, n)
    ensures !FenceClose(Ticks(tick, n) + body + Ticks(tick, n) + rest, k, tick, n)
  {
    var s, inner := Ticks(tick, n) + body + Ticks(tick, n) + rest, body + Ticks(tick, n);
    if FenceClose(s, k, tick, n) {
      forall m | k - n <= m < k ensures m < |inner| ==> inner[m] == tick {
        assert s[m + n] == tick;
        assert m < |inner| ==> s[m + n] == inner[m];
      }
    }
  }

  lemma FenceStarts(tick: char, n: nat, body: string, behind: string)
    requires FenceFits(tick, n, body)
    ensures var s := Ticks(tick, n) + body + behind;
            FenceOpen(s, 0) && s[0] == tick && RunEnd(s, 0, tick) == n
  {
    var s := Ticks(tick, n) + body + behind;
    assert forall k :: 0 <= k < n ==> s[k] == tick;
    assert s[n] == body[0];
    RunIs(s, 0, tick, n);
    hide RunEnd;
  }

  lemma ElementIsMasked(tag: string, content: string, closing: string, rest: string)
    requires Fits(Element(tag, content, closing))
    ensures var p := Element(tag, content, closing);
            Mask(Written(p) + rest, 0) == Blank(Written(p)) + Mask(rest, 0)
  {
    var w := Written(Element(tag, content, closing));
    var s, i, j := w + rest, |tag| + 2, |tag| + 2 + |content|;
    TagOpens(tag, content + ("</" + closing + ">") + rest);
    assert s == "<" + tag + ">" + (content + ("</" + closing + ">") + rest);
    assert s[j..] == "</" + closing + ">" + rest;
    assert s[j] == s[j..][0] == '<' && s[j + 1] == s[j..][1] == '/';
    forall k | i <= k < j ensures !CloseTag(s, k) {
      assert s[k] == content[k - i];
      assert k + 1 < j ==> s[k + 1] == content[k + 1 - i];
      assert !OccursAt(content, "</", k - i);
      CloseTagIs(content, k - i);
    }
    ElementIs(s, i, j);
    forall k | j <= k < |w| - 1 ensures s[k] != '>' {
      assert s[k] == ("</" + closing)[k - j];
    }
    assert s[|w| - 1] == '>';
    TagIs(s, j, |w| - 1);
    hide ElementEnd, TagEnd, Mask, Blank;
    RegionFirst(w, rest);
  }

  /** Where the opening tag ends. */
  lemma TagOpens(tag: string, behind: string)
    requires TagFits(tag)
    ensures var s := "<" + tag + ">" + behind;
            TagEnd(s, 1) == |tag| + 2 && s[0] == '<' && !CloseTag(s, 0) && !FenceOpen(s, 0)
  {
    var s := "<" + tag + ">" + behind;
    assert forall k :: 1 <= k <= |tag| ==> s[k] == tag[k - 1];
    assert s[|tag| + 1] == '>';
    TagIs(s, 1, |tag| + 1);
    hide TagEnd;
  }

  lemma ClosingIsMasked(tag: string, rest: string)
    requires Fits(Closing(tag))
    ensures Mask(Written(Closing(tag)) + rest, 0) == Blank(Written(Closing(tag))) + Mask(rest, 0)
  {
    var w := Written(Closing(tag));
    var s := w + rest;
    assert s[0] == '<' && s[1] == '/' && s[|w| - 1] == '>';
    assert forall k :: 2 <= k < |w| - 1 ==> s[k] == tag[k - 2];
    TagIs(s, 1, |w| - 1);
    hide TagEnd, Mask, Blank;
    RegionFirst(w, rest);
  }

  lemma EndIsMasked(e: Ending)
    requires EndFits(e)
    ensures Mask(EndText(e), 0) == Blank(EndText(e))
  {
    var s := EndText(e);
    if e.Complete? {
      assert Mask("", 0) == Blank("");
    } else {
      EndRegion(e);
      assert s + "" == s && Mask("", 0) == "" && Blank(s) + "" == Blank(s);
      hide Mask, Blank, EndText;
      RegionFirst(s, "");
    }
  }

  /** What is not closed runs to the end of the text. */
  lemma EndRegion(e: Ending)
    requires EndFits(e) && !e.Complete?
    ensures EndText(e) != [] && RegionEnd(EndText(e), 0) == |EndText(e)|
  {
    hide RegionEnd, NoRun, FenceFits, TagFits, NoClosing, OneLine;
    match e
    case OpenCode(code) => CodeRunsOut(code);
    case OpenFence(tick, n, body) => FenceRunsOut(tick, n, body);
    case OpenTag(tag) => TagRunsOut(tag);
    case OpenElement(tag, content) => ElementRunsOut(tag, content);
  }

  lemma CodeRunsOut(code: string)
    requires OneLine(code)
    ensures RegionEnd("`" + code, 0) == |code| + 1
  {
    var s := "`" + code;
    assert forall k :: 1 <= k < |s| ==> s[k] == code[k - 1];
    InlineIs(s, 1, |s|);
    hide InlineEnd;
  }

  lemma FenceRunsOut(tick: char, n: nat, body: string)
    requires FenceFits(tick, n, body) && NoRun(body, tick, n, "")
    ensures Ticks(tick, n) + body != [] && RegionEnd(Ticks(tick, n) + body, 0) == n + |body|
  {
    var s := Ticks(tick, n) + body;
    assert s + "" == s && body + "" == body;
    hide RunEnd, FenceEnd, FenceClose, OccursAt;
    FenceStarts(tick, n, body, "");
    forall k | n <= k < |s| ensures !FenceClose(s, k, tick, n) {
      assert !OccursAt(body, Ticks(tick, n), k - n);
      FenceCloseIs(body, k - n, tick, n);
      CloseShifts(Ticks(tick, n), body, k - n, tick, n);
    }
    FenceIs(s, n, tick, n, |s|);
  }

  lemma TagRunsOut(tag: string)
    requires '>' !in tag
    ensures RegionEnd("<" + tag, 0) == |tag| + 1
  {
    var s := "<" + tag;
    assert forall k :: 1 <= k < |s| ==> s[k] == tag[k - 1];
    TagIs(s, 1, |s|);
    assert ElementEnd(s, |s|) == |s|;
    hide TagEnd, ElementEnd;
  }

  lemma ElementRunsOut(tag: string, content: string)
    requires TagFits(tag) && NoClosing(content)
    ensures RegionEnd("<" + tag + ">" + content, 0) == |tag| + 2 + |content|
  {
    hide TagEnd, ElementEnd, OccursAt;
    var s, i := "<" + tag + ">" + content, |tag| + 2;
    TagOpens(tag, content);
    forall k | i <= k < |s| ensures !CloseTag(s, k) {
      assert s[k] == content[k - i];
      assert k + 1 < |s| ==> s[k + 1] == content[k + 1 - i];
      assert !OccursAt(content, "</", k - i);
      CloseTagIs(content, k - i);
    }
    ElementIs(s, i, |s|);
  }

  // ----- line by line -----

  /** Neither an element nor a fence opens. */
  predicate OpensNothing(a: string) {
    '<' !in a && NoTriple(a, "```") && NoTriple(a, "~~~")
  }

  /** Then inline code is all there is to mask, and none of it goes beyond its line: what is below
      is masked as if it stood alone. */
  lemma LineByLine(a: string, b: string)
    requires OpensNothing(a)
    ensures Mask(a + "\n" + b, 0) == Mask(a, 0) + ("\n" + Mask(b, 0))
  {
    assert a + "\n" + b == a + ("\n" + b);
    LinesFrom(a, b, 0);
  }

  lemma {:induction false} LinesFrom(a: string, b: string, i: nat)
    requires OpensNothing(a) && i <= |a|
    ensures Mask(a + ("\n" + b), i) == Mask(a, i) + ("\n" + Mask(b, 0))
    decreases |a| - i
  {
    hide *;
    var s, below := a + ("\n" + b), "\n" + Mask(b, 0);
    if i == |a| {
      LastLine(a, b);
    } else {
      SameRegion(a, b, i);
      var e := RegionEnd(a, i);
      MaskStep(s, i);
      MaskStep(a, i);
      if e == i {
        LinesFrom(a, b, i + 1);
        Behind([a[i]], Mask(a, i + 1), below);
      } else {
        LinesFrom(a, b, e);
        assert s[i..e] == a[i..e];
        Behind(Blank(a[i..e]), Mask(a, e), below);
      }
    }
  }

  lemma Behind(head: string, more: string, below: string)
    ensures head + (more + below) == head + more + below
  {
  }

  lemma LastLine(a: string, b: string)
    ensures Mask(a + ("\n" + b), |a|) == Mask(a, |a|) + ("\n" + Mask(b, 0))
  {
    MaskShifts(a, "\n" + b, 0);
    LineBreakIsKept(b);
    assert Mask(a, |a|) == [];
    hide Mask;
    assert [] + ("\n" + Mask(b, 0)) == "\n" + Mask(b, 0);
  }

  lemma SameRegion(a: string, b: string, i: nat)
    requires OpensNothing(a) && i < |a|
    ensures RegionEnd(a + ("\n" + b), i) == RegionEnd(a, i)
  {
    var s := a + ("\n" + b);
    assert s[|a|] == '\n' && forall k :: 0 <= k < |a| ==> s[k] == a[k];
    assert !OccursAt(a, "```", i) && !OccursAt(a, "~~~", i);
    FenceOpenIs(a, i);
    hide OccursAt;
    assert !FenceOpen(s, i) && a[i] in a;
    if a[i] == '`' {
      SameInline(a, b, i + 1);
    }
    hide InlineEnd;
  }

  lemma {:induction false} SameInline(a: string, b: string, i: nat)
    requires i <= |a|
    ensures InlineEnd(a + ("\n" + b), i) == InlineEnd(a, i)
    decreases |a| - i
  {
    var s := a + ("\n" + b);
    assert s[|a|] == '\n' && forall k :: 0 <= k < |a| ==> s[k] == a[k];
    if i < |a| { SameInline(a, b, i + 1); }
  }
}
