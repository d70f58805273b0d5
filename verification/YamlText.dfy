/** From layouts to texts: what a printed text is read as, and that every value of the subset
    has a text. */
module YamlText {
  import opened Text
  import opened Json
  import opened Yaml
  import opened YamlLayout
  import opened YamlRoundTrip

  // ----- texts and their content lines -----

  /** Texts joined with one character between them. */
  function Join(raws: seq<string>, at: char): string
    requires raws != []
  {
    if |raws| == 1 then raws[0] else raws[0] + [at] + Join(raws[1..], at)
  }

  lemma {:induction false} SplitOfJoin(raws: seq<string>, at: char)
    requires raws != [] && forall i :: 0 <= i < |raws| ==> at !in raws[i]
    ensures Split(Join(raws, at), at) == raws
  {
    if |raws| == 1 {
      SplitWhole(raws[0], at);
      assert raws == [raws[0]];
    } else {
      SplitOfJoin(raws[1..], at);
      SplitFirst(raws[0], Join(raws[1..], at), at);
      assert raws[0] + [at] + Join(raws[1..], at) == raws[0] + ([at] + Join(raws[1..], at));
    }
  }

  lemma {:induction false} SplitWhole(s: string, at: char)
    requires at !in s
    ensures Split(s, at) == [s]
  {
    if s != [] {
      SplitWhole(s[1..], at);
      assert [s[0]] + s[1..] == s;
    }
  }

  lemma {:induction false} SplitFirst(s: string, more: string, at: char)
    requires at !in s
    ensures Split(s + ([at] + more), at) == [s] + Split(more, at)
  {
    var all := s + ([at] + more);
    if s == [] {
      assert all[1..] == more;
    } else {
      assert all[1..] == s[1..] + ([at] + more);
      SplitFirst(s[1..], more, at);
      assert [s[0]] + s[1..] == s;
    }
  }

  // ----- flow lists -----

  /** Each part between the commas is blank or a scalar. */
  predicate PartsFit(parts: seq<string>, x: Reader) {
    forall i :: 0 <= i < |parts| ==> ',' !in parts[i] && (Trim(parts[i]) == [] || Scalar(Trim(parts[i]), x).Ok?)
  }

  function PartValues(parts: seq<string>, x: Reader): seq<Value>
    requires PartsFit(parts, x)
  {
    if parts == [] then []
    else
      (if Trim(parts[0]) == [] then [] else [Scalar(Trim(parts[0]), x).value]) + PartValues(parts[1..], x)
  }

  lemma {:induction false} ItemsOfParts(parts: seq<string>, items: seq<Value>, bound: nat, x: Reader)
    requires PartsFit(parts, x) && forall i :: 0 <= i < |parts| ==> |parts[i]| < bound
    ensures FlowItems(parts, items, bound, x) == Ok(Arr(items + PartValues(parts, x)))
    decreases |parts|
  {
    hide Trim, Scalar;
    if parts == [] {
      assert items + [] == items;
    } else if Trim(parts[0]) == [] {
      ItemsOfParts(parts[1..], items, bound, x);
      assert [] + PartValues(parts[1..], x) == PartValues(parts[1..], x);
    } else {
      var v := Scalar(Trim(parts[0]), x).value;
      ItemsOfParts(parts[1..], items + [v], bound, x);
      assert items + [v] + PartValues(parts[1..], x) == items + PartValues(parts, x);
    }
  }

  /** A flow list that is not JSON is the list of its non-blank parts, each a scalar. */
  lemma FlowListReads(parts: seq<string>, x: Reader)
    requires parts != [] && PartsFit(parts, x)
    requires x.value("[" + Join(parts, ',') + "]").None?
    ensures Scalar("[" + Join(parts, ',') + "]", x) == Ok(Arr(PartValues(parts, x)))
  {
    hide PartsFit, PartValues, Split, Trim, FlowItems, Join, Plain;
    var raw := "[" + Join(parts, ',') + "]";
    assert raw[1..|raw| - 1] == Join(parts, ',');
    NoCommas(parts, x);
    SplitOfJoin(parts, ',');
    ItemsOfParts(parts, [], |raw|, x);
    assert [] + PartValues(parts, x) == PartValues(parts, x);
  }

  lemma NoCommas(parts: seq<string>, x: Reader)
    requires PartsFit(parts, x)
    ensures forall i :: 0 <= i < |parts| ==> ',' !in parts[i]
  {
    hide Trim, Scalar;
  }

  // ----- lines -----

  function RawLine(line: Line): string {
    Spaces(line.indent) + line.text
  }

  function RawLines(lines: seq<Line>): (raws: seq<string>)
    ensures |raws| == |lines|
  {
    if lines == [] then [] else [RawLine(lines[0])] + RawLines(lines[1..])
  }

  predicate TextFits(text: string) {
    text != [] && Trimmed(text) && '\n' !in text && text[0] != '#'
  }

  predicate AllText(lines: seq<Line>) {
    forall i :: 0 <= i < |lines| ==> TextFits(lines[i].text)
  }

  lemma RawLineReads(line: Line)
    requires TextFits(line.text)
    ensures IsContent(RawLine(line)) && ContentLine(RawLine(line)) == line && '\n' !in RawLine(line)
  {
    var raw := RawLine(line);
    TrimStartSpaces(line.indent, line.text);
    SpaceBytes(line.indent);
    LeadingSpaces(line.indent, line.text);
    TrimKeeps(line.text);
    hide TrimStart, TrimEnd, ByteLen, Spaces, LeadingSpace;
    assert raw[..line.indent] == Spaces(line.indent);
    assert Trim(raw) == Trim(line.text);
  }

  lemma {:induction false} LeadingSpaces(k: nat, s: string)
    requires s != [] && !IsWhitespace(s[0])
    ensures LeadingSpace(Spaces(k) + s) == k
  {
    if k == 0 {
      assert Spaces(0) + s == s;
    } else {
      assert (Spaces(k) + s)[1..] == Spaces(k - 1) + s;
      LeadingSpaces(k - 1, s);
    }
  }

  lemma {:induction false} RawLinesRead(lines: seq<Line>)
    requires AllText(lines)
    ensures ContentLines(RawLines(lines)) == lines
    ensures forall i :: 0 <= i < |lines| ==> '\n' !in RawLines(lines)[i]
  {
    if lines != [] {
      hide IsContent, ContentLine, RawLine;
      RawLineReads(lines[0]);
      RawLinesRead(lines[1..]);
      assert RawLines(lines)[1..] == RawLines(lines[1..]);
    }
  }

  /** Blank and comment lines may stand anywhere. */
  lemma {:induction false} NoiseIsIgnored(above: seq<string>, noise: string, below: seq<string>)
    requires !IsContent(noise)
    ensures ContentLines(above + [noise] + below) == ContentLines(above + below)
  {
    hide IsContent, ContentLine;
    if above == [] {
      assert [] + below == below && ([] + [noise] + below)[1..] == below;
    } else {
      assert (above + [noise] + below)[1..] == above[1..] + [noise] + below;
      assert (above + below)[1..] == above[1..] + below;
      NoiseIsIgnored(above[1..], noise, below);
    }
  }

  /** Any text whose content lines are those of a legal layout is read as its value. */
  lemma {:induction false} TextReads(raws: seq<string>, doc: Doc, indent: nat, x: Reader)
    requires IsBlock(doc) && Fits(doc, x) && raws != [] && ContentLines(raws) == Lines(doc, indent)
    requires forall i :: 0 <= i < |raws| ==> '\n' !in raws[i]
    requires !OpensFlow(TrimStart(Join(raws, '\n')))
    ensures ValueOf(Join(raws, '\n'), x) == Ok(Meaning(doc, x))
  {
    hide Join, Split, ContentLines, Lines, Node, Meaning, TrimStart, OpensFlow, Fits, IsBlock, Ends;
    SplitOfJoin(raws, '\n');
    assert Ends(doc, indent, []) by {
      EndOfText(doc, indent);
    }
    NodeReads(doc, indent, [], x);
    assert Lines(doc, indent) + [] == Lines(doc, indent);
  }

  lemma EndOfText(doc: Doc, indent: nat)
    ensures Ends(doc, indent, [])
  {
  }

  // ----- what a layout prints -----

  /** No text of the layout spans lines, and no key looks like a comment. */
  predicate OneLined(doc: Doc) {
    match doc
    case Nothing => true
    case Leaf(text) => '\n' !in text
    case Mapping(fields) => FieldsOneLined(fields)
    case Listing(items) => ItemsOneLined(items)
  }

  predicate FieldsOneLined(fields: Fields) {
    match fields
    case NoField => true
    case Field(key, _, child, more) =>
      '\n' !in key && !StartsWith(key, "#") && OneLined(child) && FieldsOneLined(more)
  }

  predicate ItemsOneLined(items: Elements) {
    match items
    case NoItem => true
    case Inline(_, here, more) => OneLined(here) && ItemsOneLined(more)
    case Below(_, child, more) => OneLined(child) && ItemsOneLined(more)
  }

  lemma {:induction false} PrintedText(doc: Doc, indent: nat, x: Reader)
    requires Fits(doc, x) && OneLined(doc) && !doc.Leaf?
    ensures AllText(Lines(doc, indent))
    decreases doc, 1
  {
    hide TextFits;
    match doc
    case Nothing =>
    case Mapping(fields) => FieldText(fields, indent, x);
    case Listing(items) => ItemText(items, indent, x);
  }

  lemma {:induction false} FieldText(fields: Fields, indent: nat, x: Reader)
    requires FieldsFit(fields, x) && FieldsOneLined(fields)
    ensures AllText(FieldLines(fields, indent))
    decreases fields, 0
  {
    hide KeyFits, StepFits, LeafFits, StartsWith, TextFits, Lines, Scalar;
    match fields
    case NoField =>
    case Field(key, step, child, more) =>
      FieldText(more, indent, x);
      OneFieldText(key, step, child, indent, x);
  }

  lemma {:induction false} OneFieldText(key: string, step: nat, child: Doc, indent: nat, x: Reader)
    requires KeyFits(key) && '\n' !in key && !StartsWith(key, "#") && Fits(child, x) && OneLined(child)
    ensures AllText(OneField(key, step, child, indent))
    decreases child, 2
  {
    hide KeyFits, StartsWith, TextFits, Lines, Scalar;
    if child.Leaf? {
      LeafLineText(key, child.text, x);
    } else {
      PrintedText(child, indent + step, x);
      KeyLineText(key);
    }
  }

  lemma KeyLineText(key: string)
    requires KeyFits(key) && '\n' !in key && !StartsWith(key, "#")
    ensures TextFits(key + ":")
  {
    hide Quoted;
    assert key[..1] == [key[0]];
  }

  lemma LeafLineText(key: string, text: string, x: Reader)
    requires KeyFits(key) && '\n' !in key && !StartsWith(key, "#") && LeafFits(text, x) && '\n' !in text
    ensures TextFits(key + ": " + text)
  {
    hide Quoted, Scalar;
    assert key[..1] == [key[0]];
  }

  lemma {:induction false} ItemText(items: Elements, indent: nat, x: Reader)
    requires ItemsFit(items, x) && ItemsOneLined(items)
    ensures AllText(ItemLines(items, indent))
    decreases items, 0
  {
    hide Scalar, OpensMap, HeadText, StepFits, TextFits, Fits, OneLined, Lines, Dashed;
    assert AllText([]);
    hide AllText;
    match items
    case NoItem =>
    case Inline(pad, here, more) =>
      ItemText(more, indent, x);
      InlineText(pad, here, indent, x);
      BothText(Dashed(Lines(here, indent + 2 + pad), indent, pad), ItemLines(more, indent));
    case Below(step, child, more) =>
      ItemText(more, indent, x);
      PrintedText(child, indent + step, x);
      BareDashText(indent);
      BothText([Line(indent, "-")], Lines(child, indent + step));
      BothText([Line(indent, "-")] + Lines(child, indent + step), ItemLines(more, indent));
  }

  lemma BothText(a: seq<Line>, b: seq<Line>)
    requires AllText(a) && AllText(b)
    ensures AllText(a + b)
  {
    hide TextFits;
  }

  lemma BareDashText(indent: nat)
    ensures AllText([Line(indent, "-")])
  {
    DashText([], 0);
    assert TextFits("-");
  }

  lemma {:induction false} InlineText(pad: nat, here: Doc, indent: nat, x: Reader)
    requires !here.Nothing? && Fits(here, x) && OneLined(here)
    ensures AllText(Dashed(Lines(here, indent + 2 + pad), indent, pad))
    decreases here, 2
  {
    hide *;
    if here.Leaf? {
      LeafText(here, indent + 2 + pad, x);
    } else {
      HeadLine(here, indent + 2 + pad, x);
      PrintedText(here, indent + 2 + pad, x);
      FirstText(Lines(here, indent + 2 + pad));
    }
    DashedText(Lines(here, indent + 2 + pad), indent, pad);
  }

  /** Text that may stand behind a dash. */
  predicate BehindDash(block: seq<Line>) {
    block != [] && block[0].text != [] && Trimmed(block[0].text) && '\n' !in block[0].text && AllText(block[1..])
  }

  lemma LeafText(here: Doc, indent: nat, x: Reader)
    requires here.Leaf? && Fits(here, x) && OneLined(here)
    ensures BehindDash(Lines(here, indent))
  {
    hide Scalar, TextFits;
    assert Lines(here, indent)[1..] == [];
  }

  lemma FirstText(block: seq<Line>)
    requires block != [] && AllText(block)
    ensures BehindDash(block)
  {
  }

  lemma DashedText(block: seq<Line>, indent: nat, pad: nat)
    requires BehindDash(block)
    ensures AllText(Dashed(block, indent, pad))
  {
    DashText(block[0].text, pad);
    hide Spaces, TextFits;
  }

  lemma DashText(text: string, pad: nat)
    ensures text == [] ==> TextFits("-")
    ensures text != [] && Trimmed(text) && '\n' !in text ==> TextFits("- " + Spaces(pad) + text)
  {
  }

  function PrintedAt(doc: Doc, indent: nat): string {
    var raws := RawLines(Lines(doc, indent));
    if raws == [] then "" else Join(raws, '\n')
  }

  /** The printed text of any legal layout, at any indentation, is read as exactly its value. */
  lemma {:induction false} PrintedReads(doc: Doc, indent: nat, x: Reader)
    requires IsBlock(doc) && Fits(doc, x) && OneLined(doc) && !OpensFlow(HeadText(doc))
    ensures ValueOf(PrintedAt(doc, indent), x) == Ok(Meaning(doc, x))
  {
    hide Fits, OneLined, Lines, HeadText, AllText, Meaning, ContentLines, TrimStart, ValueOf, OpensFlow;
    var lines := Lines(doc, indent);
    PrintedText(doc, indent, x);
    RawLinesRead(lines);
    HeadLine(doc, indent, x);
    HeadIsSolid(doc, x);
    FirstOfPrinted(lines);
    TextReads(RawLines(lines), doc, indent, x);
  }

  lemma FirstOfPrinted(lines: seq<Line>)
    requires lines != [] && lines[0].text != [] && !IsWhitespace(lines[0].text[0])
    ensures OpensFlow(TrimStart(Join(RawLines(lines), '\n'))) == OpensFlow(lines[0].text)
  {
    hide TrimStart;
    var raws, head := RawLines(lines), lines[0];
    var more := if |raws| == 1 then "" else "\n" + Join(raws[1..], '\n');
    TrimStartSpaces(head.indent, head.text + more);
    hide RawLines;
    assert Join(raws, '\n') == Spaces(head.indent) + (head.text + more);
  }
}
