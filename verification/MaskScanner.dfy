/** Masking of fenced code, inline code and markup, so that only prose can hold a keyword. */
module MaskScanner {
  import opened Text

  // ----- where a masked region ends -----

  predicate FenceOpen(s: string, i: nat)
    requires i < |s|
  {
    (s[i] == '`' || s[i] == '~') && i + 2 < |s| && s[i + 1] == s[i] && s[i + 2] == s[i]
  }

  predicate FenceClose(s: string, i: nat, tick: char, run: nat) {
    i + run <= |s| && forall k :: i <= k < i + run ==> s[k] == tick
  }

  predicate CloseTag(s: string, i: nat)
    requires i < |s|
  {
    s[i] == '<' && i + 1 < |s| && s[i + 1] == '/'
  }

  /** End of the run of `tick` from `i` on. */
  function RunEnd(s: string, i: nat, tick: char): (j: nat)
    requires i <= |s|
    ensures i <= j <= |s| && (forall k :: i <= k < j ==> s[k] == tick) && (j < |s| ==> s[j] != tick)
    decreases |s| - i
  {
    if i < |s| && s[i] == tick then RunEnd(s, i + 1, tick) else i
  }

  /** End of the first closing fence from `i` on, or of the text. */
  function FenceEnd(s: string, i: nat, tick: char, run: nat): (e: nat)
    requires i <= |s|
    ensures i <= e <= |s|
    decreases |s| - i
  {
    if i == |s| then i
    else if FenceClose(s, i, tick, run) then i + run
    else FenceEnd(s, i + 1, tick, run)
  }

  /** End of inline code: behind the closing backtick, or at the end of the line. */
  function InlineEnd(s: string, i: nat): (e: nat)
    requires i <= |s|
    ensures i <= e <= |s|
    decreases |s| - i
  {
    if i == |s| || s[i] == '\n' then i else if s[i] == '`' then i + 1 else InlineEnd(s, i + 1)
  }

  /** End of a tag: behind the first `>`, or the end of the text. */
  function TagEnd(s: string, i: nat): (e: nat)
    requires i <= |s|
    ensures i <= e <= |s|
    decreases |s| - i
  {
    if i == |s| then i else if s[i] == '>' then i + 1 else TagEnd(s, i + 1)
  }

  /** End of the first closing tag from `i` on, or of the text. */
  function ElementEnd(s: string, i: nat): (e: nat)
    requires i <= |s|
    ensures i <= e <= |s|
    decreases |s| - i
  {
    if i == |s| then i else if CloseTag(s, i) then TagEnd(s, i) else ElementEnd(s, i + 1)
  }

  /** The end of the masked region that starts at `i`; `i` itself where prose goes on. */
  function RegionEnd(s: string, i: nat): (e: nat)
    requires i < |s|
    ensures i <= e <= |s|
    ensures e == i <==> !FenceOpen(s, i) && s[i] != '`' && s[i] != '<'
  {
    if FenceOpen(s, i) then
      var j := RunEnd(s, i, s[i]);
      FenceEnd(s, j, s[i], j - i)
    else if s[i] == '`' then InlineEnd(s, i + 1)
    else if s[i] == '<' then
      var j := TagEnd(s, i + 1);
      if CloseTag(s, i) then j else ElementEnd(s, j)
    else i
  }

  function BlankChar(c: char): char {
    if c == '\n' then '\n' else ' '
  }

  function Blank(s: string): (b: string)
    ensures |b| == |s|
  {
    if s == [] then [] else Blank(s[..|s| - 1]) + [BlankChar(s[|s| - 1])]
  }

  /** The masked form of `s` from `i` on. */
  function Mask(s: string, i: nat): (m: string)
    requires i <= |s|
    ensures |m| == |s| - i
    decreases |s| - i
  {
    if i == |s| then []
    else
      var e := RegionEnd(s, i);
      if e == i then [s[i]] + Mask(s, i + 1) else Blank(s[i..e]) + Mask(s, e)
  }

  // ----- the scanner -----

  /** `out` is the blanked text between `from` and `i`. */
  predicate Blanked(s: string, from: nat, i: nat, out: string) {
    from <= i <= |s| && out == Blank(s[from..i])
  }

  lemma BlankedNothing(s: string, from: nat)
    requires from <= |s|
    ensures Blanked(s, from, from, "")
  {
  }

  lemma BlankedOneMore(s: string, from: nat, i: nat, out: string)
    requires Blanked(s, from, i, out) && i < |s|
    ensures Blanked(s, from, i + 1, out + [BlankChar(s[i])])
  {
    assert s[from..i + 1][..i - from] == s[from..i];
  }

  lemma BlankedOneLess(s: string, from: nat, i: nat, out: string)
    requires Blanked(s, from, i, out) && from < i
    ensures out != [] && Blanked(s, from, i - 1, out[..|out| - 1]) && out[|out| - 1] == BlankChar(s[i - 1])
  {
    assert s[from..i][..i - 1 - from] == s[from..i - 1];
  }

  lemma {:induction false} BlankedJoin(s: string, from: nat, mid: nat, i: nat, a: string, b: string)
    requires Blanked(s, from, mid, a) && Blanked(s, mid, i, b)
    ensures Blanked(s, from, i, a + b)
    decreases i - mid
  {
    if mid == i {
      assert a + b == a;
    } else {
      var n := |b| - 1;
      BlankedOneLess(s, mid, i, b);
      hide *;
      BlankedJoin(s, from, mid, i - 1, a, b[..n]);
      BlankedOneMore(s, from, i - 1, a + b[..n]);
      assert a + b[..n] + [b[n]] == a + b;
    }
  }

  method MaskNonProse(text: string) returns (out: string)
    ensures out == Mask(text, 0)
  {
    hide RegionEnd, Blank;
    out := "";
    var i := 0;
    assert "" + Mask(text, 0) == Mask(text, 0);
    while i < |text|
      invariant 0 <= i <= |text|
      invariant Mask(text, 0) == out + Mask(text, i)
      decreases |text| - i
    {
      var e, more := MaskRegion(text, i);
      if e == i {
        more := [text[i]];
        e := i + 1;
      }
      Associate(out, more, Mask(text, e));
      out, i := out + more, e;
    }
    assert out + [] == out;
  }

  lemma Associate(a: string, b: string, c: string)
    ensures a + (b + c) == a + b + c
  {
  }

  /** The branches of the scanner that blank a region. */
  method MaskRegion(text: string, start: nat) returns (i: nat, out: string)
    requires start < |text|
    ensures i == RegionEnd(text, start) && Blanked(text, start, i, out)
  {
    hide Blank, Blanked, FenceOpen;
    BlankedNothing(text, start);
    i, out := start, "";
    if FenceOpen(text, start) {
      i, out := MaskFence(text, start);
    } else if text[start] == '`' {
      BlankedOneMore(text, start, start, "");
      assert "" + [BlankChar(text[start])] == " ";
      i, out := start + 1, " ";
      while i < |text| && text[i] != '`' && text[i] != '\n'
        invariant start < i <= |text| && InlineEnd(text, start + 1) == InlineEnd(text, i)
        invariant Blanked(text, start, i, out)
      {
        BlankedOneMore(text, start, i, out);
        out := out + " ";
        i := i + 1;
      }
      if i < |text| && text[i] == '`' {
        BlankedOneMore(text, start, i, out);
        out := out + " ";
        i := i + 1;
      }
    } else if text[start] == '<' {
      var isClose := start + 1 < |text| && text[start + 1] == '/';
      i, out := MaskTag(text, start);
      if !isClose {
        var more;
        var from := i;
        i, more := MaskUntilCloseTag(text, i);
        BlankedJoin(text, start, from, i, out, more);
        out := out + more;
      }
    }
  }

  method MaskFence(text: string, start: nat) returns (i: nat, out: string)
    requires start < |text| && FenceOpen(text, start)
    ensures i == RegionEnd(text, start) && Blanked(text, start, i, out)
  {
    hide Blank, Blanked;
    BlankedNothing(text, start);
    var tick := text[start];
    assert [BlankChar(tick)] == " ";
    hide BlankChar, FenceOpen, RegionEnd, FenceEnd;
    var j := start;
    while j < |text| && text[j] == tick
      invariant start <= j <= |text| && RunEnd(text, start, tick) == RunEnd(text, j, tick)
    {
      j := j + 1;
    }
    var run := j - start;
    i, out := start, "";
    while i < j
      invariant start <= i <= j && Blanked(text, start, i, out)
    {
      BlankedOneMore(text, start, i, out);
      out := out + " ";
      i := i + 1;
    }
    FenceIsRegion(text, start, j);
    hide RunEnd;
    while i < |text|
      invariant j <= i <= |text| && FenceEnd(text, j, tick, run) == FenceEnd(text, i, tick, run)
      invariant Blanked(text, start, i, out)
    {
      FenceEndHere(text, i, tick, run);
      if FenceClose(text, i, tick, run) {
        var e := i + run;
        while i < e
          invariant j <= i <= e == FenceEnd(text, j, tick, run) && FenceClose(text, e - run, tick, run)
          invariant Blanked(text, start, i, out)
        {
          BlankedOneMore(text, start, i, out);
          out := out + " ";
          i := i + 1;
        }
        break;
      }
      BlankedOneMore(text, start, i, out);
      out := out + [BlankChar(text[i])];
      i := i + 1;
    }
  }

  lemma FenceEndHere(s: string, i: nat, tick: char, run: nat)
    requires i < |s|
    ensures FenceEnd(s, i, tick, run) == if FenceClose(s, i, tick, run) then i + run else FenceEnd(s, i + 1, tick, run)
  {
  }

  lemma FenceIsRegion(text: string, start: nat, j: nat)
    requires start < |text| && FenceOpen(text, start) && j == RunEnd(text, start, text[start]) && start <= j
    ensures RegionEnd(text, start) == FenceEnd(text, j, text[start], j - start)
  {
    hide FenceEnd, RunEnd;
  }

  /** Blanks up to and including the next `>`. */
  method MaskTag(text: string, start: nat) returns (i: nat, out: string)
    requires start <= |text|
    ensures i == TagEnd(text, start) && Blanked(text, start, i, out)
  {
    hide Blank, Blanked;
    BlankedNothing(text, start);
    i, out := start, "";
    while i < |text|
      invariant start <= i <= |text| && TagEnd(text, start) == TagEnd(text, i)
      invariant Blanked(text, start, i, out)
    {
      BlankedOneMore(text, start, i, out);
      out := out + [BlankChar(text[i])];
      var done := text[i] == '>';
      i := i + 1;
      if done {
        break;
      }
    }
  }

  method MaskUntilCloseTag(text: string, start: nat) returns (i: nat, out: string)
    requires start <= |text|
    ensures i == ElementEnd(text, start) && Blanked(text, start, i, out)
  {
    hide Blank, Blanked;
    BlankedNothing(text, start);
    i, out := start, "";
    while i < |text|
      invariant start <= i <= |text| && ElementEnd(text, start) == ElementEnd(text, i)
      invariant Blanked(text, start, i, out)
    {
      if text[i] == '<' && i + 1 < |text| && text[i + 1] == '/' {
        var from, more := i, "";
        i, more := MaskTag(text, i);
        BlankedJoin(text, start, from, i, out, more);
        out := out + more;
        break;
      }
      BlankedOneMore(text, start, i, out);
      out := out + [BlankChar(text[i])];
      i := i + 1;
    }
  }

  // ----- what masking keeps -----

  /** Position `k` is reached as prose by a scan from `i`. */
  predicate Prose(s: string, i: nat, k: nat)
    requires i <= |s|
    decreases |s| - i
  {
    i < |s| && i <= k
    && (var e := RegionEnd(s, i);
        if e == i then k == i || Prose(s, i + 1, k) else Prose(s, e, k))
  }

  /** Everything from `from` up to `to` is prose. */
  predicate AllProse(s: string, from: nat, to: nat) {
    forall j :: from <= j < to ==> Prose(s, 0, j)
  }

  lemma {:induction false} ProseInRange(s: string, i: nat, k: nat)
    requires i <= |s| && Prose(s, i, k)
    ensures i <= k < |s| && RegionEnd(s, k) == k
    decreases |s| - i
  {
    hide RegionEnd;
    var e := RegionEnd(s, i);
    if e != i {
      ProseInRange(s, e, k);
    } else if k != i {
      ProseInRange(s, i + 1, k);
    }
  }

  lemma {:induction false} BlankAt(s: string, k: nat)
    requires k < |s|
    ensures Blank(s)[k] == BlankChar(s[k])
  {
    if k < |s| - 1 { BlankAt(s[..|s| - 1], k); }
  }

  /** Prose is copied, everything else is blanked. */
  lemma {:induction false} MaskAt(s: string, i: nat, k: nat)
    requires i <= k < |s|
    ensures Mask(s, i)[k - i] == if Prose(s, i, k) then s[k] else BlankChar(s[k])
    decreases |s| - i
  {
    hide *;
    MaskStep(s, i);
    ProseStep(s, i, k);
    var e := RegionEnd(s, i);
    if e == i {
      if k > i { MaskAt(s, i + 1, k); }
    } else if k >= e {
      MaskAt(s, e, k);
    } else {
      BlankAt(s[i..e], k - i);
    }
  }

  lemma MaskStep(s: string, i: nat)
    requires i < |s|
    ensures var e := RegionEnd(s, i);
            Mask(s, i) == if e == i then [s[i]] + Mask(s, i + 1) else Blank(s[i..e]) + Mask(s, e)
  {
    hide RegionEnd, Blank;
  }

  lemma ProseStep(s: string, i: nat, k: nat)
    requires i <= k < |s|
    ensures var e := RegionEnd(s, i);
            Prose(s, i, k) <==> if e == i then k == i || Prose(s, i + 1, k) else k >= e && Prose(s, e, k)
  {
    hide RegionEnd;
    var e := RegionEnd(s, i);
    if Prose(s, e, k) { ProseInRange(s, e, k); }
  }

  /** Length and line breaks stay where they are; a character is kept or becomes a space. */
  lemma MaskKeepsLines(s: string)
    ensures var m := Mask(s, 0);
            |m| == |s| && forall k :: 0 <= k < |s| ==>
              (m[k] == '\n' <==> s[k] == '\n') && (m[k] == s[k] || m[k] == ' ')
  {
    forall k | 0 <= k < |s|
      ensures var m := Mask(s, 0); (m[k] == '\n' <==> s[k] == '\n') && (m[k] == s[k] || m[k] == ' ')
    {
      MaskAt(s, 0, k);
    }
  }

  /** No backtick, no `<` and no `~~~`. */
  predicate Clean(m: string) {
    forall k :: 0 <= k < |m| ==> m[k] != '`' && m[k] != '<' && !FenceOpen(m, k)
  }

  lemma MaskedIsClean(s: string)
    ensures Clean(Mask(s, 0))
  {
    var m := Mask(s, 0);
    forall k | 0 <= k < |m| ensures m[k] != '`' && m[k] != '<' && !FenceOpen(m, k) {
      KeptIsProse(s, k);
      if k + 2 < |m| {
        KeptIsProse(s, k + 1);
        KeptIsProse(s, k + 2);
      }
    }
  }

  /** A character of the masked text that is not white is prose of the original. */
  lemma KeptIsProse(s: string, k: nat)
    requires k < |s|
    ensures var c := Mask(s, 0)[k];
            c != ' ' && c != '\n' ==> Prose(s, 0, k) && c == s[k] && c != '`' && c != '<' && !FenceOpen(s, k)
  {
    MaskAt(s, 0, k);
    if Prose(s, 0, k) { ProseInRange(s, 0, k); }
  }

  lemma {:induction false} CleanIsUnchanged(m: string, i: nat)
    requires Clean(m) && i <= |m|
    ensures Mask(m, i) == m[i..]
    decreases |m| - i
  {
    if i < |m| { CleanIsUnchanged(m, i + 1); }
  }

  /** Masking a masked text changes nothing; neither does masking plain prose. */
  lemma MaskIsIdempotent(s: string)
    ensures Mask(Mask(s, 0), 0) == Mask(s, 0)
    ensures Clean(s) <==> Mask(s, 0) == s
  {
    MaskedIsClean(s);
    CleanIsUnchanged(Mask(s, 0), 0);
    if Clean(s) { CleanIsUnchanged(s, 0); }
  }

  // ----- what borders on prose -----

  lemma {:induction false} FenceStop(s: string, i: nat, tick: char, run: nat)
    requires i <= |s| && run > 0
    ensures var e := FenceEnd(s, i, tick, run); e < |s| ==> e > 0 && s[e - 1] == tick
    decreases |s| - i
  {
    if i < |s| && !FenceClose(s, i, tick, run) { FenceStop(s, i + 1, tick, run); }
  }

  lemma {:induction false} InlineStop(s: string, i: nat)
    requires i <= |s|
    ensures var e := InlineEnd(s, i); e < |s| ==> s[e] == '\n' || (e > 0 && s[e - 1] == '`')
    decreases |s| - i
  {
    if i < |s| && s[i] != '\n' && s[i] != '`' { InlineStop(s, i + 1); }
  }

  lemma {:induction false} TagStop(s: string, i: nat)
    requires i <= |s|
    ensures var e := TagEnd(s, i); e < |s| ==> e > 0 && s[e - 1] == '>'
    decreases |s| - i
  {
    if i < |s| && s[i] != '>' { TagStop(s, i + 1); }
  }

  lemma {:induction false} ElementStop(s: string, i: nat)
    requires i <= |s|
    ensures var e := ElementEnd(s, i); e < |s| ==> e > 0 && s[e - 1] == '>'
    decreases |s| - i
  {
    if i < |s| {
      if CloseTag(s, i) { TagStop(s, i); } else { ElementStop(s, i + 1); }
    }
  }

  /** A masked region starts with a mark and, unless the text or line ends, ends with one. */
  lemma RegionBorders(s: string, i: nat)
    requires i < |s| && RegionEnd(s, i) != i
    ensures s[i] == '`' || s[i] == '~' || s[i] == '<'
    ensures var e := RegionEnd(s, i);
            e < |s| ==> s[e] == '\n' || s[e - 1] == '`' || s[e - 1] == '~' || s[e - 1] == '>'
  {
    if FenceOpen(s, i) {
      var j := RunEnd(s, i, s[i]);
      FenceStop(s, j, s[i], j - i);
    } else if s[i] == '`' {
      InlineStop(s, i + 1);
    } else {
      var j := TagEnd(s, i + 1);
      TagStop(s, i + 1);
      ElementStop(s, j);
    }
  }

  lemma {:induction false} ProseBorders(s: string, i: nat, k: nat)
    requires i <= k < |s| && Prose(s, i, k)
    ensures k > i && !Prose(s, i, k - 1) ==>
              s[k] == '\n' || s[k - 1] == '`' || s[k - 1] == '~' || s[k - 1] == '>'
    ensures k + 1 < |s| && !Prose(s, i, k + 1) ==> s[k + 1] == '`' || s[k + 1] == '~' || s[k + 1] == '<'
    decreases |s| - i
  {
    hide RegionEnd;
    var e := RegionEnd(s, i);
    if e != i {
      ProseInRange(s, e, k);
      RegionBorders(s, i);
      ProseBorders(s, e, k);
    } else if k > i {
      ProseBorders(s, i + 1, k);
    } else if k + 1 < |s| {
      if RegionEnd(s, i + 1) == i + 1 {
        assert Prose(s, i + 1, i + 1);
      } else {
        RegionBorders(s, i + 1);
      }
    }
  }
}
