/** The parser undoes the printer: every legal layout is read back as exactly its value. */
module YamlRoundTrip {
  import opened Text
  import opened Json
  import opened Yaml
  import opened YamlLayout

  // ----- one line -----

  /** A key is split off where it was written. */
  lemma KeyReads(key: string, behind: string)
    requires KeyFits(key) && (behind == [] || behind[0] == ' ')
    ensures KeyOf(key + ":" + behind) == Some((key, Trim(behind)))
  {
    hide Trim;
    var line := key + ":" + behind;
    assert line[..|key|] == key && line[|key| + 1..] == behind;
    TrimKeeps(key);
    KeyStarts(key, behind);
    var start := if IsQuote(key[0]) then |key| else 0;
    ColonFound(line[start..], |key| - start);
  }

  lemma KeyStarts(key: string, behind: string)
    requires KeyFits(key)
    ensures KeyStart(key + ":" + behind) == Some(if IsQuote(key[0]) then |key| else 0)
  {
    var line := key + ":" + behind;
    if IsQuote(key[0]) {
      var k := |key| - 2;
      assert line[..1] == [key[0]] && line[1..][k..k + 1] == [key[0]];
      assert OccursAt(line[1..], line[..1], k);
      forall j | 0 <= j < k ensures !OccursAt(line[1..], line[..1], j) {
        assert line[1..][j..j + 1][0] == key[1..|key| - 1][j];
      }
    }
  }

  lemma ColonFound(s: string, at: nat)
    requires at < |s| && s[at] == ':' && ':' !in s[..at]
    ensures Find(s, ":") == Some(at)
  {
    assert s[at..at + 1] == ":";
    assert OccursAt(s, ":", at);
    forall j | 0 <= j < at ensures !OccursAt(s, ":", j) {
      assert s[j..j + 1][0] == s[..at][j];
    }
  }

  lemma BareKeyReads(key: string)
    requires KeyFits(key)
    ensures KeyOf(key + ":") == Some((key, ""))
  {
    KeyReads(key, "");
    assert key + ":" + "" == key + ":";
  }

  lemma KeyAndTextRead(key: string, text: string)
    requires KeyFits(key) && text != [] && Trimmed(text)
    ensures KeyOf(key + ": " + text) == Some((key, text))
  {
    hide KeyOf;
    KeyReads(key, " " + text);
    assert key + ":" + (" " + text) == key + ": " + text;
    assert (" " + text)[1..] == text;
    TrimKeeps(text);
  }

  lemma KeyLineIsNoDash(key: string, behind: string)
    requires KeyFits(key)
    ensures !IsDash(key + ":" + behind)
  {
    var line := key + ":" + behind;
    if |key| >= 2 {
      assert line[..2] == key[..2];
    } else {
      assert line[1] == ':';
    }
  }

  /** A dash line is reopened as the line printed behind the dash. */
  lemma {:induction false} ReopensAs(indent: nat, pad: nat, text: string)
    requires text == [] || !IsWhitespace(text[0])
    ensures Reopened(Line(indent, "- " + Spaces(pad) + text)) == Line(indent + 2 + pad, text)
  {
    var line := "- " + Spaces(pad) + text;
    BehindTheDash(pad, text);
    DashBytes(pad);
    hide TrimStart, ByteLen, Spaces;
    assert line[..|line| - |text|] == "- " + Spaces(pad);
  }

  lemma BehindTheDash(pad: nat, text: string)
    requires text == [] || !IsWhitespace(text[0])
    ensures TrimStart(("- " + Spaces(pad) + text)[1..]) == text
  {
    hide TrimStart;
    var line, gap := "- " + Spaces(pad) + text, Spaces(pad + 1);
    TrimStartSpaces(pad + 1, text);
    hide Spaces;
    assert line[1..] == gap + text;
  }

  lemma DashBytes(pad: nat)
    ensures ByteLen("- " + Spaces(pad)) == 2 + pad
  {
    SpaceBytes(pad);
    ByteLenConcat("- ", Spaces(pad));
    assert "- "[1..] == " " && " "[1..] == "";
  }

  lemma {:induction false} SpaceBytes(k: nat)
    ensures ByteLen(Spaces(k)) == k
  {
    if k > 0 {
      SpaceBytes(k - 1);
      assert Spaces(k)[1..] == Spaces(k - 1);
    }
  }

  // ----- the first line of a layout -----

  lemma {:induction false} HeadLine(doc: Doc, indent: nat, x: Reader)
    requires Fits(doc, x) && !doc.Nothing?
    ensures Lines(doc, indent) != [] && Lines(doc, indent)[0] == Line(indent, HeadText(doc))
  {
    hide Scalar, KeyFits, LeafFits, StepFits, OpensMap, Spaces;
    match doc {
      case Leaf(_) =>
      case Mapping(Field(key, step, child, more)) =>
        assert Lines(doc, indent) == OneField(key, step, child, indent) + FieldLines(more, indent);
      case Listing(Inline(pad, here, _)) => HeadLine(here, indent + 2 + pad, x);
      case Listing(Below(_, _, _)) =>
    }
  }

  lemma HeadIsSolid(doc: Doc, x: Reader)
    requires Fits(doc, x) && !doc.Nothing?
    ensures HeadText(doc) != [] && !IsWhitespace(HeadText(doc)[0])
  {
    hide Scalar, StepFits, OpensMap, Lines, Spaces, Quoted;
  }

  lemma HeadIsDash(doc: Doc, x: Reader)
    requires Fits(doc, x) && IsBlock(doc)
    ensures IsDash(HeadText(doc)) <==> doc.Listing?
  {
    hide Scalar;
    if doc.Mapping? {
      var key, child := doc.fields.key, doc.fields.child;
      if child.Leaf? {
        KeyLineIsNoDash(key, " " + child.text);
        assert key + ":" + (" " + child.text) == HeadText(doc);
      } else {
        KeyLineIsNoDash(key, "");
        assert key + ":" + "" == HeadText(doc);
      }
    }
  }

  // ----- blocks -----

  /** Lines that end a block at `indent`: shallower, or level with a list and no dash. */
  predicate Ends(doc: Doc, indent: nat, rest: seq<Line>) {
    rest == [] || rest[0].indent < indent || (doc.Listing? && rest[0].indent == indent && !IsDash(rest[0].text))
  }

  /** Lines that may stand behind a child of the line at `indent`. */
  predicate EndsChild(indent: nat, underKey: bool, rest: seq<Line>) {
    rest == [] || rest[0].indent < indent || (rest[0].indent == indent && (underKey ==> !IsDash(rest[0].text)))
  }

  predicate ReadsAs(lines: seq<Line>, indent: nat, v: Value, rest: seq<Line>, x: Reader) {
    lines != [] && lines[0].indent == indent && Node(lines, indent, x) == Done(v, rest)
  }

  /** The printed block in front of any lines that end it is read as its value, and the
      cursor stops behind it. */
  lemma {:induction false} NodeReads(doc: Doc, indent: nat, rest: seq<Line>, x: Reader)
    requires IsBlock(doc) && Fits(doc, x) && Ends(doc, indent, rest)
    ensures ReadsAs(Lines(doc, indent) + rest, indent, Meaning(doc, x), rest, x)
    decreases doc, 1
  {
    HeadLine(doc, indent, x);
    HeadIsDash(doc, x);
    var lines := Lines(doc, indent) + rest;
    assert lines[0] == Line(indent, HeadText(doc));
    if doc.Mapping? {
      FieldsRead(doc.fields, indent, map[], rest, x);
    } else {
      ItemsRead(doc.items, indent, [], rest, x);
      assert [] + ItemValues(doc.items, x) == ItemValues(doc.items, x);
    }
    hide HeadText, IsDash, Yaml.Items, Entries, Scalar, FieldsFit, ItemsFit, FieldLines, ItemLines, FieldValues,
      ItemValues;
  }

  lemma {:induction false} ChildReads(doc: Doc, indent: nat, step: nat, underKey: bool, rest: seq<Line>, x: Reader)
    requires !doc.Leaf? && Fits(doc, x) && StepFits(doc, step, underKey) && EndsChild(indent, underKey, rest)
    ensures Child(Lines(doc, indent + step) + rest, indent, underKey, x) == Done(Meaning(doc, x), rest)
    decreases doc, 2
  {
    if doc.Nothing? {
      assert Lines(doc, indent + step) + rest == rest;
      NothingReads(indent, underKey, rest, x);
      hide Child;
    } else {
      ChildFacts(doc, indent, step, underKey, rest, x);
      hide *;
      NodeReads(doc, indent + step, rest, x);
      BlockReads(Lines(doc, indent + step) + rest, indent, step, underKey, Meaning(doc, x), rest, x);
    }
  }

  lemma ChildFacts(doc: Doc, indent: nat, step: nat, underKey: bool, rest: seq<Line>, x: Reader)
    requires !doc.Leaf? && !doc.Nothing? && Fits(doc, x) && StepFits(doc, step, underKey)
    requires EndsChild(indent, underKey, rest)
    ensures IsBlock(doc) && Ends(doc, indent + step, rest)
    ensures Lines(doc, indent + step) != []
    ensures step > 0 || (underKey && StartsWith((Lines(doc, indent + step) + rest)[0].text, "- "))
  {
    hide FieldsFit, ItemsFit, HeadText, Scalar, Lines, IsDash;
    HeadLine(doc, indent + step, x);
  }

  lemma NothingReads(indent: nat, underKey: bool, rest: seq<Line>, x: Reader)
    requires EndsChild(indent, underKey, rest)
    ensures Child(rest, indent, underKey, x) == Done(Null, rest)
  {
    hide Node;
  }

  lemma BlockReads(lines: seq<Line>, indent: nat, step: nat, underKey: bool, v: Value, rest: seq<Line>, x: Reader)
    requires ReadsAs(lines, indent + step, v, rest, x)
    requires step > 0 || (underKey && StartsWith(lines[0].text, "- "))
    ensures Child(lines, indent, underKey, x) == Done(v, rest)
  {
    hide Node, StartsWith;
  }

  // ----- maps -----

  /** One turn of the map loop. */
  lemma EntryStep(lines: seq<Line>, indent: nat, before: map<string, Value>, key: string, value: string, v: Value,
                  rest: seq<Line>, x: Reader)
    requires lines != [] && lines[0].indent == indent && KeyOf(lines[0].text) == Some((key, value))
    requires EntryValue(lines[1..], indent, value, x) == Done(v, rest)
    ensures Entries(lines, indent, before, x) == Entries(rest, indent, before[Unquote(key) := v], x)
  {
    hide KeyOf, EntryValue, Unquote;
  }

  lemma EntriesEnd(rest: seq<Line>, indent: nat, before: map<string, Value>, x: Reader)
    requires rest == [] || rest[0].indent < indent
    ensures Entries(rest, indent, before, x) == Done(Obj(before), rest)
  {
    hide KeyOf, EntryValue, Unquote;
  }

  lemma {:induction false} FieldsRead(fields: Fields, indent: nat, before: map<string, Value>, rest: seq<Line>,
                                      x: Reader)
    requires FieldsFit(fields, x) && (rest == [] || rest[0].indent < indent)
    ensures Entries(FieldLines(fields, indent) + rest, indent, before, x)
            == Done(Obj(FieldValues(fields, before, x)), rest)
    decreases fields, 0
  {
    hide Scalar, KeyFits, StepFits, Entries, OneField, EndsChild;
    match fields
    case NoField =>
      assert FieldLines(fields, indent) + rest == rest;
      EntriesEnd(rest, indent, before, x);
    case Field(key, step, child, more) =>
      var behind := FieldLines(more, indent) + rest;
      FieldsRead(more, indent, before[Unquote(key) := Meaning(child, x)], rest, x);
      NextField(more, indent, rest, x);
      FieldReads(key, step, child, indent, before, behind, x);
      assert FieldLines(fields, indent) + rest == OneField(key, step, child, indent) + behind;
  }

  /** What stands behind a field is shallower, or level with it and no dash. */
  lemma NextField(more: Fields, indent: nat, rest: seq<Line>, x: Reader)
    requires FieldsFit(more, x) && (rest == [] || rest[0].indent < indent)
    ensures EndsChild(indent, true, FieldLines(more, indent) + rest)
  {
    if more.Field? {
      HeadLine(Mapping(more), indent, x);
      HeadIsDash(Mapping(more), x);
      assert Lines(Mapping(more), indent) == FieldLines(more, indent);
      hide HeadText, FieldLines, FieldsFit;
    } else {
      assert FieldLines(more, indent) + rest == rest;
    }
  }

  /** One entry, whatever stands behind it. */
  lemma FieldReads(key: string, step: nat, child: Doc, indent: nat, before: map<string, Value>, behind: seq<Line>,
                   x: Reader)
    requires KeyFits(key) && Fits(child, x) && StepFits(child, step, true) && EndsChild(indent, true, behind)
    ensures Entries(OneField(key, step, child, indent) + behind, indent, before, x)
            == Entries(behind, indent, before[Unquote(key) := Meaning(child, x)], x)
    decreases child, 3
  {
    hide *;
    if child.Leaf? {
      LeafField(key, step, child, indent, before, behind, x);
    } else {
      ChildReads(child, indent, step, true, behind, x);
      BareKeyReads(key);
      SplitField(key, step, child, indent, behind);
      BlockField(key, Line(indent, key + ":"), Lines(child, indent + step) + behind, before,
                 Meaning(child, x), behind, x);
    }
  }

  lemma SplitField(key: string, step: nat, child: Doc, indent: nat, behind: seq<Line>)
    requires !child.Leaf?
    ensures OneField(key, step, child, indent) + behind
            == [Line(indent, key + ":")] + (Lines(child, indent + step) + behind)
  {
    hide Lines;
  }

  lemma LeafField(key: string, step: nat, child: Doc, indent: nat, before: map<string, Value>, behind: seq<Line>,
                  x: Reader)
    requires KeyFits(key) && child.Leaf? && Fits(child, x)
    ensures Entries(OneField(key, step, child, indent) + behind, indent, before, x)
            == Entries(behind, indent, before[Unquote(key) := Meaning(child, x)], x)
  {
    KeyAndTextRead(key, child.text);
    hide Scalar, KeyOf, KeyFits, Unquote, Entries, Lines, Trimmed;
    var lines := OneField(key, step, child, indent) + behind;
    assert lines[0].text == key + ": " + child.text && lines[1..] == behind;
    EntryStep(lines, indent, before, key, child.text, Meaning(child, x), behind, x);
  }

  lemma BlockField(key: string, head: Line, below: seq<Line>, before: map<string, Value>, v: Value, behind: seq<Line>,
                   x: Reader)
    requires KeyOf(head.text) == Some((key, "")) && Child(below, head.indent, true, x) == Done(v, behind)
    ensures Entries([head] + below, head.indent, before, x)
            == Entries(behind, head.indent, before[Unquote(key) := v], x)
  {
    hide Scalar, KeyOf, Child, Unquote, Entries;
    assert ([head] + below)[1..] == below;
    EntryStep([head] + below, head.indent, before, key, "", v, behind, x);
  }

  // ----- lists -----

  /** One turn of the list loop. */
  lemma ItemStep(lines: seq<Line>, indent: nat, before: seq<Value>, v: Value, rest: seq<Line>, x: Reader)
    requires lines != [] && lines[0].indent == indent && IsDash(lines[0].text)
    requires OneItem(lines, indent, x) == Done(v, rest)
    ensures Yaml.Items(lines, indent, before, x) == Yaml.Items(rest, indent, before + [v], x)
  {
    hide OneItem, IsDash;
  }

  lemma ItemsEnd(rest: seq<Line>, indent: nat, before: seq<Value>, x: Reader)
    requires rest == [] || rest[0].indent < indent || (rest[0].indent == indent && !IsDash(rest[0].text))
    ensures Yaml.Items(rest, indent, before, x) == Done(Arr(before), rest)
  {
    hide OneItem, IsDash;
  }

  predicate ItemReadsAs(lines: seq<Line>, indent: nat, v: Value, rest: seq<Line>, x: Reader) {
    lines != [] && lines[0].indent == indent && IsDash(lines[0].text) && OneItem(lines, indent, x) == Done(v, rest)
  }

  lemma {:induction false} ItemsRead(items: Elements, indent: nat, before: seq<Value>, rest: seq<Line>, x: Reader)
    requires ItemsFit(items, x)
    requires rest == [] || rest[0].indent < indent || (rest[0].indent == indent && !IsDash(rest[0].text))
    ensures Yaml.Items(ItemLines(items, indent) + rest, indent, before, x)
            == Done(Arr(before + ItemValues(items, x)), rest)
    decreases items, 0
  {
    hide Fits, Meaning, Scalar, OneItem, IsDash, Yaml.Items, OpensMap, HeadText, Lines, Dashed, StepFits, ItemReadsAs;
    match items
    case NoItem =>
      assert ItemLines(items, indent) + rest == rest;
      assert before + [] == before;
      ItemsEnd(rest, indent, before, x);
    case Inline(pad, here, more) =>
      var behind, v := ItemLines(more, indent) + rest, Meaning(here, x);
      OuterItems(more, indent, rest, x);
      InlineReads(pad, here, indent, behind, x);
      ItemThenRest(items, Dashed(Lines(here, indent + 2 + pad), indent, pad), indent, before, v, more, rest, x);
    case Below(step, child, more) =>
      var behind, v := ItemLines(more, indent) + rest, Meaning(child, x);
      OuterItems(more, indent, rest, x);
      BelowReads(step, child, indent, behind, x);
      ItemThenRest(items, [Line(indent, "-")] + Lines(child, indent + step), indent, before, v, more, rest, x);
  }

  lemma {:induction false} ItemThenRest(items: Elements, head: seq<Line>, indent: nat, before: seq<Value>, v: Value,
                                        more: Elements, rest: seq<Line>, x: Reader)
    requires ItemsFit(items, x) && more < items && ItemsFit(more, x)
    requires rest == [] || rest[0].indent < indent || (rest[0].indent == indent && !IsDash(rest[0].text))
    requires ItemLines(items, indent) == head + ItemLines(more, indent)
    requires ItemValues(items, x) == [v] + ItemValues(more, x)
    requires ItemReadsAs(head + (ItemLines(more, indent) + rest), indent, v, ItemLines(more, indent) + rest, x)
    ensures Yaml.Items(ItemLines(items, indent) + rest, indent, before, x)
            == Done(Arr(before + ItemValues(items, x)), rest)
    decreases more, 1
  {
    hide ItemsFit, OneItem, IsDash, Yaml.Items, ItemLines, ItemValues;
    ItemStep(head + (ItemLines(more, indent) + rest), indent, before, v, ItemLines(more, indent) + rest, x);
    ItemsRead(more, indent, before + [v], rest, x);
    assert ItemLines(items, indent) + rest == head + (ItemLines(more, indent) + rest);
    assert before + [v] + ItemValues(more, x) == before + ItemValues(items, x);
  }

  /** What stands behind an item is not deeper than its dash. */
  predicate Outer(behind: seq<Line>, indent: nat) {
    behind == [] || behind[0].indent <= indent
  }

  lemma OuterItems(more: Elements, indent: nat, rest: seq<Line>, x: Reader)
    requires ItemsFit(more, x) && Outer(rest, indent)
    ensures Outer(ItemLines(more, indent) + rest, indent)
  {
    if more.NoItem? {
      assert ItemLines(more, indent) + rest == rest;
    } else {
      HeadLine(Listing(more), indent, x);
      assert Lines(Listing(more), indent) == ItemLines(more, indent);
      hide HeadText, ItemLines, ItemsFit;
    }
  }

  /** An item on the line of its dash. */
  lemma InlineReads(pad: nat, here: Doc, indent: nat, behind: seq<Line>, x: Reader)
    requires !here.Nothing? && Fits(here, x) && (here.Leaf? <==> !OpensMap(HeadText(here))) && Outer(behind, indent)
    ensures ItemReadsAs(Dashed(Lines(here, indent + 2 + pad), indent, pad) + behind, indent,
                        Meaning(here, x), behind, x)
    decreases here, 3
  {
    hide *;
    HeadOfInline(here, x);
    if here.Leaf? {
      InlineLeaf(pad, here, indent, behind, x);
    } else {
      OuterEnds(here, indent, pad, behind);
      HeadLine(here, indent + 2 + pad, x);
      HeadIsSolid(here, x);
      NodeReads(here, indent + 2 + pad, behind, x);
      InlineBlock(pad, Lines(here, indent + 2 + pad), indent, Meaning(here, x), behind, x);
    }
  }

  lemma HeadOfInline(here: Doc, x: Reader)
    requires !here.Nothing? && Fits(here, x)
    ensures here.Leaf? ==> HeadText(here) == here.text
    ensures !here.Leaf? ==> IsBlock(here)
  {
    hide LeafFits, FieldsFit, ItemsFit;
  }

  lemma OuterEnds(here: Doc, indent: nat, pad: nat, behind: seq<Line>)
    requires Outer(behind, indent)
    ensures Ends(here, indent + 2 + pad, behind)
  {
  }

  lemma InlineLeaf(pad: nat, here: Doc, indent: nat, behind: seq<Line>, x: Reader)
    requires here.Leaf? && Fits(here, x) && !OpensMap(here.text)
    ensures ItemReadsAs(Dashed(Lines(here, indent + 2 + pad), indent, pad) + behind, indent,
                        Meaning(here, x), behind, x)
  {
    hide Scalar, OpensMap, Reopened, Spaces, OneItem, IsDash;
    var lines := Dashed(Lines(here, indent + 2 + pad), indent, pad) + behind;
    assert lines[0] == Line(indent, "- " + Spaces(pad) + here.text) && lines[1..] == behind;
    ReopensAs(indent, pad, here.text);
    DashStarts(pad, here.text);
    LeafItem(lines, indent, here.text, x);
  }

  lemma InlineBlock(pad: nat, block: seq<Line>, indent: nat, v: Value, behind: seq<Line>, x: Reader)
    requires block != [] && block[0].text != [] && !IsWhitespace(block[0].text[0]) && OpensMap(block[0].text)
    requires ReadsAs(block + behind, indent + 2 + pad, v, behind, x)
    ensures ItemReadsAs(Dashed(block, indent, pad) + behind, indent, v, behind, x)
  {
    hide Scalar, OpensMap, Reopened, Spaces, OneItem, IsDash, Node;
    var lines := Dashed(block, indent, pad) + behind;
    var text := block[0].text;
    assert lines[0] == Line(indent, "- " + Spaces(pad) + text);
    ReopensAs(indent, pad, text);
    DashStarts(pad, text);
    assert [block[0]] + lines[1..] == block + behind;
    BlockItem(lines, indent, block[0], v, behind, x);
  }

  lemma DashStarts(pad: nat, text: string)
    ensures IsDash("- " + Spaces(pad) + text)
  {
  }

  lemma LeafItem(lines: seq<Line>, indent: nat, text: string, x: Reader)
    requires lines != [] && lines[0].indent == indent && IsDash(lines[0].text) && Reopened(lines[0]).text == text
    requires text != [] && !OpensMap(text) && Scalar(text, x).Ok?
    ensures OneItem(lines, indent, x) == Done(Scalar(text, x).value, lines[1..])
  {
    hide Scalar, OpensMap, Reopened, IsDash;
  }

  lemma BlockItem(lines: seq<Line>, indent: nat, first: Line, v: Value, rest: seq<Line>, x: Reader)
    requires lines != [] && lines[0].indent == indent && IsDash(lines[0].text) && Reopened(lines[0]) == first
    requires first.text != [] && OpensMap(first.text)
    requires ReadsAs([first] + lines[1..], first.indent, v, rest, x)
    ensures OneItem(lines, indent, x) == Done(v, rest)
  {
    hide Scalar, OpensMap, Reopened, IsDash, Node;
  }

  /** An item on the lines below its dash. */
  lemma BelowReads(step: nat, child: Doc, indent: nat, behind: seq<Line>, x: Reader)
    requires !child.Leaf? && Fits(child, x) && StepFits(child, step, false) && Outer(behind, indent)
    ensures ItemReadsAs([Line(indent, "-")] + Lines(child, indent + step) + behind, indent,
                        Meaning(child, x), behind, x)
    decreases child, 3
  {
    hide Fits, Meaning, Scalar, Child, StepFits, EndsChild, Reopened, Lines, OneItem, ItemReadsAs, HeadText;
    assert EndsChild(indent, false, behind) by {
      OuterEndsChild(indent, behind);
    }
    ChildReads(child, indent, step, false, behind, x);
    BelowItem(Lines(child, indent + step), indent, Meaning(child, x), behind, x);
  }

  lemma OuterEndsChild(indent: nat, behind: seq<Line>)
    requires Outer(behind, indent)
    ensures EndsChild(indent, false, behind)
  {
  }

  lemma BelowItem(block: seq<Line>, indent: nat, v: Value, behind: seq<Line>, x: Reader)
    requires Child(block + behind, indent, false, x) == Done(v, behind)
    ensures ItemReadsAs([Line(indent, "-")] + block + behind, indent, v, behind, x)
  {
    hide Scalar, Child, Reopened;
    var lines := [Line(indent, "-")] + block + behind;
    assert lines[1..] == block + behind;
    BareDash(indent);
  }

  lemma BareDash(indent: nat)
    ensures Reopened(Line(indent, "-")).text == "" && IsDash("-")
  {
    assert TrimStart("-"[1..]) == "";
  }

  /** Level with its key, a list is only recognized by a first line with something behind the
      dash: a bare dash there makes the whole map fail. */
  lemma BareDashIsRefused(key: string, indent: nat, before: map<string, Value>, rest: seq<Line>, x: Reader)
    requires KeyFits(key)
    ensures Entries([Line(indent, key + ":"), Line(indent, "-")] + rest, indent, before, x).Failed?
  {
    var below := [Line(indent, "-")] + rest;
    assert [Line(indent, key + ":"), Line(indent, "-")] + rest == [Line(indent, key + ":")] + below;
    BareKeyReads(key);
    DashIsNoKey();
    hide KeyOf, KeyFits, Node;
    assert Child(below, indent, true, x) == Done(Null, below);
    BlockField(key, Line(indent, key + ":"), below, before, Null, below, x);
  }

  lemma DashIsNoKey()
    ensures KeyOf("-").None?
  {
    assert "-"[0..] == "-";
    forall j: nat ensures !OccursAt("-", ":", j) {
      assert j == 0 ==> "-"[j..j + 1][0] == '-';
    }
  }
}
