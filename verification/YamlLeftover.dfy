/** What the block parser makes of lines that are left over: a text is read as a value only if one
    block takes all its lines. */
module YamlLeftover {
  import opened Text
  import opened Json
  import opened Yaml
  import opened YamlLayout
  import opened YamlRoundTrip
  import opened YamlText

  // ----- a whole text -----

  /** Block texts are read exactly if there is a line to read and one block takes them all. */
  lemma {:induction false} ReadWhole(raw: string, x: Reader, v: Value)
    requires !OpensFlow(TrimStart(raw))
    ensures var lines := ContentLines(Split(raw, '\n'));
            ValueOf(raw, x) == Ok(v) <==> lines != [] && Node(lines, lines[0].indent, x) == Yaml.Done(v, [])
  {
    hide Node, ContentLines, Split, TrimStart;
  }

  /** A text with nothing but blanks and comments is an error. */
  lemma EmptyIsRefused(raw: string, x: Reader)
    requires !OpensFlow(TrimStart(raw)) && forall i :: 0 <= i < |Split(raw, '\n')| ==> !IsContent(Split(raw, '\n')[i])
    ensures ValueOf(raw, x) == Err("`output` is empty")
  {
    NothingButNoise(Split(raw, '\n'));
    hide Split, TrimStart, IsContent;
  }

  lemma {:induction false} NothingButNoise(raws: seq<string>)
    requires forall i :: 0 <= i < |raws| ==> !IsContent(raws[i])
    ensures ContentLines(raws) == []
  {
    hide IsContent;
    if raws != [] { NothingButNoise(raws[1..]); }
  }

  /** Blank lines and comments are those: nothing but blanks, or blanks and then `#`. */
  lemma NoiseIs(line: string)
    ensures !IsContent(line) <==> TrimStart(line) == [] || TrimStart(line)[0] == '#'
  {
    TrimEndKeeps(TrimStart(line));
    assert TrimStart(line) != [] ==> (StartsWith(TrimStart(line), "#") <==> TrimStart(line)[..1] == "#");
    hide TrimStart, TrimEnd;
  }

  lemma {:induction false} TrimEndKeeps(s: string)
    ensures s != [] && !IsWhitespace(s[0]) ==> TrimEnd(s) != []
    ensures s == [] ==> TrimEnd(s) == []
  {
    if |s| > 1 { TrimEndKeeps(s[..|s| - 1]); }
  }

  // ----- lines left over -----

  /** The line is at no column at which the end of this layout could go on. */
  predicate Stops(doc: Doc, indent: nat, line: Line)
    decreases doc, 0
  {
    match doc
    case Nothing => true
    case Leaf(_) => true
    case Mapping(fields) => line.indent != indent && FieldsStop(fields, indent, line)
    case Listing(items) => !(line.indent == indent && IsDash(line.text)) && ItemsStop(items, indent, line)
  }

  predicate FieldsStop(fields: Fields, indent: nat, line: Line)
    decreases fields, 0
  {
    match fields
    case NoField => true
    case Field(_, step, child, more) =>
      if more.Field? then FieldsStop(more, indent, line) else ChildStops(child, indent, step, true, line)
  }

  predicate ItemsStop(items: Elements, indent: nat, line: Line)
    decreases items, 0
  {
    match items
    case NoItem => true
    case Inline(pad, here, more) =>
      if !more.NoItem? then ItemsStop(more, indent, line) else Stops(here, indent + 2 + pad, line)
    case Below(step, child, more) =>
      if !more.NoItem? then ItemsStop(more, indent, line) else ChildStops(child, indent, step, false, line)
  }

  /** Nor could it be the child that is not there. */
  predicate ChildStops(child: Doc, indent: nat, step: nat, underKey: bool, line: Line)
    decreases child, 1
  {
    if child.Nothing? then EndsChild(indent, underKey, [line]) else Stops(child, indent + step, line)
  }

  /** Then the layout is read up to it, and it is left over. */
  lemma {:induction false} NodeStops(doc: Doc, indent: nat, line: Line, more: seq<Line>, x: Reader)
    requires IsBlock(doc) && Fits(doc, x) && Stops(doc, indent, line)
    ensures ReadsAs(Lines(doc, indent) + ([line] + more), indent, Meaning(doc, x), [line] + more, x)
    decreases doc, 1
  {
    HeadLine(doc, indent, x);
    HeadIsDash(doc, x);
    var rest := [line] + more;
    var lines := Lines(doc, indent) + rest;
    assert lines[0] == Line(indent, HeadText(doc));
    if doc.Mapping? {
      FieldsReadUpTo(doc.fields, indent, map[], line, more, x);
    } else {
      ItemsReadUpTo(doc.items, indent, [], line, more, x);
      assert [] + ItemValues(doc.items, x) == ItemValues(doc.items, x);
    }
    hide HeadText, IsDash, Yaml.Items, Entries, Scalar, FieldsFit, ItemsFit, FieldLines, ItemLines, FieldValues,
      ItemValues, FieldsStop, ItemsStop;
  }

  lemma {:induction false} ChildReadUpTo(doc: Doc, indent: nat, step: nat, underKey: bool, line: Line,
                                         more: seq<Line>, x: Reader)
    requires !doc.Leaf? && Fits(doc, x) && StepFits(doc, step, underKey)
    requires ChildStops(doc, indent, step, underKey, line)
    ensures Child(Lines(doc, indent + step) + ([line] + more), indent, underKey, x)
            == Yaml.Done(Meaning(doc, x), [line] + more)
    decreases doc, 2
  {
    var rest := [line] + more;
    if doc.Nothing? {
      assert Lines(doc, indent + step) + rest == rest;
      NothingReads(indent, underKey, rest, x);
      hide Child;
    } else {
      ChildHead(doc, indent, step, underKey, rest, x);
      assert Stops(doc, indent + step, line);
      hide *;
      NodeStops(doc, indent + step, line, more, x);
      BlockReads(Lines(doc, indent + step) + rest, indent, step, underKey, Meaning(doc, x), rest, x);
    }
  }

  lemma ChildHead(doc: Doc, indent: nat, step: nat, underKey: bool, rest: seq<Line>, x: Reader)
    requires !doc.Leaf? && !doc.Nothing? && Fits(doc, x) && StepFits(doc, step, underKey)
    ensures IsBlock(doc) && Lines(doc, indent + step) != []
    ensures step > 0 || (underKey && StartsWith((Lines(doc, indent + step) + rest)[0].text, "- "))
  {
    hide FieldsFit, ItemsFit, HeadText, Scalar, Lines;
    HeadLine(doc, indent + step, x);
  }

  lemma {:induction false} FieldsReadUpTo(fields: Fields, indent: nat, before: map<string, Value>, line: Line,
                                          more: seq<Line>, x: Reader)
    requires FieldsFit(fields, x) && line.indent != indent && FieldsStop(fields, indent, line)
    ensures Entries(FieldLines(fields, indent) + ([line] + more), indent, before, x)
            == Yaml.Done(Obj(FieldValues(fields, before, x)), [line] + more)
    decreases fields, 0
  {
    hide Scalar, KeyFits, StepFits, Entries, OneField, EndsChild, ChildStops;
    var rest := [line] + more;
    match fields
    case NoField =>
      assert FieldLines(fields, indent) + rest == rest;
      EntriesStopAt(rest, indent, before, x);
    case Field(key, step, child, others) =>
      var behind := FieldLines(others, indent) + rest;
      FieldsReadUpTo(others, indent, before[Unquote(key) := Meaning(child, x)], line, more, x);
      assert FieldLines(fields, indent) == OneField(key, step, child, indent) + FieldLines(others, indent);
      if others.Field? {
        NextIsAKey(others, indent, rest, x);
        hide *;
        FieldReads(key, step, child, indent, before, behind, x);
      } else {
        assert FieldLines(others, indent) == [];
        hide *;
        assert behind == rest;
        LastFieldReads(key, step, child, indent, before, line, more, x);
      }
      Together(OneField(key, step, child, indent), FieldLines(others, indent), rest);
  }

  lemma Together(head: seq<Line>, others: seq<Line>, rest: seq<Line>)
    ensures head + others + rest == head + (others + rest)
  {
  }

  lemma EntriesStopAt(rest: seq<Line>, indent: nat, before: map<string, Value>, x: Reader)
    requires rest != [] && rest[0].indent != indent
    ensures Entries(rest, indent, before, x) == Yaml.Done(Obj(before), rest)
  {
    hide KeyOf, EntryValue, Unquote;
  }

  lemma NextIsAKey(fields: Fields, indent: nat, rest: seq<Line>, x: Reader)
    requires FieldsFit(fields, x) && fields.Field?
    ensures EndsChild(indent, true, FieldLines(fields, indent) + rest)
  {
    HeadLine(Mapping(fields), indent, x);
    HeadIsDash(Mapping(fields), x);
    assert Lines(Mapping(fields), indent) == FieldLines(fields, indent);
    hide HeadText, FieldLines, FieldsFit;
  }

  lemma LastFieldReads(key: string, step: nat, child: Doc, indent: nat, before: map<string, Value>, line: Line,
                       more: seq<Line>, x: Reader)
    requires KeyFits(key) && Fits(child, x) && StepFits(child, step, true)
    requires ChildStops(child, indent, step, true, line)
    ensures Entries(OneField(key, step, child, indent) + ([line] + more), indent, before, x)
            == Entries([line] + more, indent, before[Unquote(key) := Meaning(child, x)], x)
    decreases child, 3
  {
    hide *;
    var rest := [line] + more;
    if child.Leaf? {
      LeafField(key, step, child, indent, before, rest, x);
    } else {
      ChildReadUpTo(child, indent, step, true, line, more, x);
      BareKeyReads(key);
      SplitField(key, step, child, indent, rest);
      BlockField(key, Line(indent, key + ":"), Lines(child, indent + step) + rest, before, Meaning(child, x), rest, x);
    }
  }

  lemma {:induction false} ItemsReadUpTo(items: Elements, indent: nat, before: seq<Value>, line: Line,
                                         more: seq<Line>, x: Reader)
    requires ItemsFit(items, x) && !(line.indent == indent && IsDash(line.text)) && ItemsStop(items, indent, line)
    ensures Yaml.Items(ItemLines(items, indent) + ([line] + more), indent, before, x)
            == Yaml.Done(Arr(before + ItemValues(items, x)), [line] + more)
    decreases items, 0
  {
    hide Fits, Meaning, Scalar, OneItem, IsDash, Yaml.Items, OpensMap, HeadText, Lines, Dashed, StepFits, ItemReadsAs,
      Stops, ChildStops;
    var rest := [line] + more;
    match items
    case NoItem =>
      assert ItemLines(items, indent) + rest == rest;
      assert before + [] == before;
      ItemsStopAt(rest, indent, before, x);
    case Inline(pad, here, others) =>
      var head, v := Dashed(Lines(here, indent + 2 + pad), indent, pad), Meaning(here, x);
      assert ItemLines(items, indent) == head + ItemLines(others, indent);
      assert ItemValues(items, x) == [v] + ItemValues(others, x);
      ItemsReadUpTo(others, indent, before + [v], line, more, x);
      if others.NoItem? {
        assert ItemLines(others, indent) == [];
        hide *;
        assert [] + rest == rest;
        LastInlineReads(pad, here, indent, line, more, x);
      } else {
        hide *;
        NextIsADash(others, indent, rest, x);
        InlineReads(pad, here, indent, ItemLines(others, indent) + rest, x);
      }
      OneMoreItem(head, ItemLines(others, indent), indent, before, v, ItemValues(others, x), rest, x);
    case Below(step, child, others) =>
      var head, v := [Line(indent, "-")] + Lines(child, indent + step), Meaning(child, x);
      assert ItemLines(items, indent) == head + ItemLines(others, indent);
      assert ItemValues(items, x) == [v] + ItemValues(others, x);
      ItemsReadUpTo(others, indent, before + [v], line, more, x);
      if others.NoItem? {
        assert ItemLines(others, indent) == [];
        hide *;
        assert [] + rest == rest;
        LastBelowReads(step, child, indent, line, more, x);
      } else {
        hide *;
        NextIsADash(others, indent, rest, x);
        BelowReads(step, child, indent, ItemLines(others, indent) + rest, x);
      }
      OneMoreItem(head, ItemLines(others, indent), indent, before, v, ItemValues(others, x), rest, x);
  }

  /** An item in front of items that are read. */
  lemma OneMoreItem(head: seq<Line>, others: seq<Line>, indent: nat, before: seq<Value>, v: Value, values: seq<Value>,
                    rest: seq<Line>, x: Reader)
    requires ItemReadsAs(head + (others + rest), indent, v, others + rest, x)
    requires Yaml.Items(others + rest, indent, before + [v], x) == Yaml.Done(Arr(before + [v] + values), rest)
    ensures Yaml.Items(head + others + rest, indent, before, x) == Yaml.Done(Arr(before + ([v] + values)), rest)
  {
    hide OneItem, IsDash, Yaml.Items;
    ItemStep(head + (others + rest), indent, before, v, others + rest, x);
    assert head + others + rest == head + (others + rest);
    assert before + [v] + values == before + ([v] + values);
  }

  lemma ItemsStopAt(rest: seq<Line>, indent: nat, before: seq<Value>, x: Reader)
    requires rest != [] && !(rest[0].indent == indent && IsDash(rest[0].text))
    ensures Yaml.Items(rest, indent, before, x) == Yaml.Done(Arr(before), rest)
  {
    hide OneItem, IsDash;
  }

  lemma NextIsADash(items: Elements, indent: nat, rest: seq<Line>, x: Reader)
    requires ItemsFit(items, x) && !items.NoItem?
    ensures Outer(ItemLines(items, indent) + rest, indent)
  {
    HeadLine(Listing(items), indent, x);
    assert Lines(Listing(items), indent) == ItemLines(items, indent);
    hide HeadText, ItemLines, ItemsFit;
  }

  lemma LastInlineReads(pad: nat, here: Doc, indent: nat, line: Line, more: seq<Line>, x: Reader)
    requires !here.Nothing? && Fits(here, x) && (here.Leaf? <==> !OpensMap(HeadText(here)))
    requires Stops(here, indent + 2 + pad, line)
    ensures ItemReadsAs(Dashed(Lines(here, indent + 2 + pad), indent, pad) + ([line] + more), indent,
                        Meaning(here, x), [line] + more, x)
    decreases here, 3
  {
    hide *;
    HeadOfInline(here, x);
    if here.Leaf? {
      InlineLeaf(pad, here, indent, [line] + more, x);
    } else {
      HeadLine(here, indent + 2 + pad, x);
      HeadIsSolid(here, x);
      NodeStops(here, indent + 2 + pad, line, more, x);
      InlineBlock(pad, Lines(here, indent + 2 + pad), indent, Meaning(here, x), [line] + more, x);
    }
  }

  lemma LastBelowReads(step: nat, child: Doc, indent: nat, line: Line, more: seq<Line>, x: Reader)
    requires !child.Leaf? && Fits(child, x) && StepFits(child, step, false)
    requires ChildStops(child, indent, step, false, line)
    ensures ItemReadsAs([Line(indent, "-")] + Lines(child, indent + step) + ([line] + more), indent,
                        Meaning(child, x), [line] + more, x)
    decreases child, 3
  {
    hide *;
    ChildReadUpTo(child, indent, step, false, line, more, x);
    BelowItem(Lines(child, indent + step), indent, Meaning(child, x), [line] + more, x);
  }

  /** A text whose content goes on behind a legal layout with a line the layout has no place for
      is refused, with that line in the message: whatever else follows, nothing of it is read. */
  lemma {:induction false} LeftoverIsRefused(raws: seq<string>, doc: Doc, indent: nat, line: Line, more: seq<Line>,
                                             x: Reader)
    requires IsBlock(doc) && Fits(doc, x) && Stops(doc, indent, line)
    requires raws != [] && ContentLines(raws) == Lines(doc, indent) + ([line] + more)
    requires forall i :: 0 <= i < |raws| ==> '\n' !in raws[i]
    requires !OpensFlow(TrimStart(Join(raws, '\n')))
    ensures ValueOf(Join(raws, '\n'), x) == Err("unexpected indentation at `" + line.text + "`")
  {
    hide Join, Split, ContentLines, Lines, Node, Meaning, TrimStart, OpensFlow, Fits, IsBlock, Stops;
    SplitOfJoin(raws, '\n');
    NodeStops(doc, indent, line, more, x);
  }

  /** A line shallower than the layout is one it has no place for. */
  lemma {:induction false} ShallowerStops(doc: Doc, indent: nat, line: Line)
    requires line.indent < indent
    ensures Stops(doc, indent, line)
    decreases doc, 1
  {
    match doc
    case Mapping(fields) => ShallowerStopsFields(fields, indent, line);
    case Listing(items) => ShallowerStopsItems(items, indent, line);
    case _ =>
  }

  lemma {:induction false} ShallowerStopsFields(fields: Fields, indent: nat, line: Line)
    requires line.indent < indent
    ensures FieldsStop(fields, indent, line)
    decreases fields, 0
  {
    if fields.Field? {
      if fields.more.Field? {
        ShallowerStopsFields(fields.more, indent, line);
      } else {
        ShallowerStops(fields.child, indent + fields.step, line);
      }
    }
  }

  lemma {:induction false} ShallowerStopsItems(items: Elements, indent: nat, line: Line)
    requires line.indent < indent
    ensures ItemsStop(items, indent, line)
    decreases items, 0
  {
    match items
    case NoItem =>
    case Inline(pad, here, more) =>
      if more.NoItem? {
        ShallowerStops(here, indent + 2 + pad, line);
      } else {
        ShallowerStopsItems(more, indent, line);
      }
    case Below(step, child, more) =>
      if more.NoItem? {
        ShallowerStops(child, indent + step, line);
      } else {
        ShallowerStopsItems(more, indent, line);
      }
  }

  /** So is any line that ends the layout for its reader. */
  lemma EndingLineStops(doc: Doc, indent: nat, line: Line, x: Reader)
    requires IsBlock(doc) && Fits(doc, x) && Ends(doc, indent, [line])
    ensures Stops(doc, indent, line)
  {
    hide Fits;
    if line.indent < indent {
      ShallowerStops(doc, indent, line);
    } else {
      assert ItemsFit(doc.items, x) by { FitsMeans(doc, x); }
      LevelLineStops(doc.items, indent, line, x);
    }
  }

  lemma FitsMeans(doc: Doc, x: Reader)
    requires doc.Listing? && Fits(doc, x)
    ensures ItemsFit(doc.items, x)
  {
  }

  lemma {:induction false} LevelLineStops(items: Elements, indent: nat, line: Line, x: Reader)
    requires ItemsFit(items, x) && line.indent == indent && !IsDash(line.text)
    ensures ItemsStop(items, indent, line)
    decreases items
  {
    hide Fits, OpensMap, HeadText, IsDash;
    match items
    case NoItem =>
    case Inline(pad, here, more) =>
      if more.NoItem? { ShallowerStops(here, indent + 2 + pad, line); } else { LevelLineStops(more, indent, line, x); }
    case Below(step, child, more) =>
      if !more.NoItem? {
        LevelLineStops(more, indent, line, x);
      } else if !child.Nothing? {
        BlockIsDeeper(child, step, x);
        ShallowerStops(child, indent + step, line);
      }
  }

  lemma BlockIsDeeper(child: Doc, step: nat, x: Reader)
    requires !child.Leaf? && !child.Nothing? && Fits(child, x) && StepFits(child, step, false)
    ensures step > 0
  {
    hide FieldsFit, ItemsFit, HeadText;
  }

  /** So is, behind an entry with a scalar, a line at any other column than the entry's; as a deeper
      line, that no scalar goes on in. */
  lemma {:induction false} ScalarDoesNotGoOn(key: string, text: string, indent: nat, line: Line, more: seq<Line>,
                                             x: Reader)
    requires KeyFits(key) && LeafFits(text, x) && line.indent != indent
    ensures Node([Line(indent, key + ": " + text), line] + more, indent, x)
            == Yaml.Done(Obj(map[Unquote(key) := Scalar(text, x).value]), [line] + more)
  {
    var doc := Mapping(Field(key, 0, Leaf(text), NoField));
    hide Node, KeyFits, Scalar, Unquote;
    OneEntry(key, text, indent, x);
    ScalarStops(key, text, indent, line);
    NodeStops(doc, indent, line, more, x);
    assert Lines(doc, indent) + ([line] + more) == [Line(indent, key + ": " + text), line] + more;
  }

  lemma OneEntry(key: string, text: string, indent: nat, x: Reader)
    requires KeyFits(key) && LeafFits(text, x)
    ensures var doc := Mapping(Field(key, 0, Leaf(text), NoField));
            IsBlock(doc) && Fits(doc, x) && Lines(doc, indent) == [Line(indent, key + ": " + text)]
            && Meaning(doc, x) == Obj(map[Unquote(key) := Scalar(text, x).value])
  {
    hide KeyFits, Scalar, Unquote;
    var fields := Field(key, 0, Leaf(text), NoField);
    assert Fits(Leaf(text), x) && FieldsFit(NoField, x) && FieldsFit(fields, x);
    assert FieldLines(NoField, indent) == [];
    assert FieldLines(fields, indent) == [Line(indent, key + ": " + text)];
    assert Meaning(Leaf(text), x) == Scalar(text, x).value;
    var value := map[Unquote(key) := Scalar(text, x).value];
    assert FieldValues(NoField, value, x) == value;
    assert FieldValues(fields, map[], x) == value;
  }

  /** The smallest such text: a deeper line behind an entry. */
  lemma DeeperLineIsRefused(x: Reader)
    ensures ValueOf("a: 1\n  b: 2", x) == Err("unexpected indentation at `b: 2`")
  {
    hide *;
    var doc := Mapping(Field("a", 0, Leaf("1"), NoField));
    var first, line := Line(0, "a" + ": " + "1"), Line(2, "b: 2");
    SmallEntryFits(x);
    OneEntry("a", "1", 0, x);
    ScalarStops("a", "1", 0, line);
    assert "a" + ": " + "1" == "a: 1";
    SmallTextReads();
    assert [first] + ([line] + []) == [Line(0, "a: 1"), line];
    assert "unexpected indentation at `" + "b: 2" + "`" == "unexpected indentation at `b: 2`";
    LeftoverIsRefused(["a: 1", "  b: 2"], doc, 0, line, [], x);
  }

  lemma SmallEntryFits(x: Reader)
    ensures KeyFits("a") && LeafFits("1", x)
  {
  }

  lemma ScalarStops(key: string, text: string, indent: nat, line: Line)
    requires line.indent != indent
    ensures Stops(Mapping(Field(key, 0, Leaf(text), NoField)), indent, line)
  {
    assert ChildStops(Leaf(text), indent, 0, true, line);
  }

  lemma SmallTextReads()
    ensures ContentLines(["a: 1", "  b: 2"]) == [Line(0, "a: 1"), Line(2, "b: 2")]
    ensures '\n' !in "a: 1" && '\n' !in "  b: 2"
    ensures Join(["a: 1", "  b: 2"], '\n') == "a: 1\n  b: 2" && !OpensFlow(TrimStart("a: 1\n  b: 2"))
  {
    hide *;
    var lines := [Line(0, "a: 1"), Line(2, "b: 2")];
    SmallLines();
    TwoRawLines(lines[0], lines[1]);
    RawLinesRead(lines);
    assert RawLines(lines)[0] == "a: 1" && RawLines(lines)[1] == "  b: 2";
    JoinOfTwo("a: 1", "  b: 2", '\n');
    assert "a: 1" + ['\n'] + "  b: 2" == "a: 1\n  b: 2";
    SmallTextOpens();
  }

  lemma SmallTextOpens()
    ensures !OpensFlow(TrimStart("a: 1\n  b: 2"))
  {
    assert LeadingSpace("a: 1\n  b: 2") == 0;
  }

  lemma SmallLines()
    ensures AllText([Line(0, "a: 1"), Line(2, "b: 2")])
    ensures RawLine(Line(0, "a: 1")) == "a: 1" && RawLine(Line(2, "b: 2")) == "  b: 2"
  {
    assert Spaces(1) == " " && Spaces(2) == "  ";
  }

  lemma TwoRawLines(a: Line, b: Line)
    ensures RawLines([a, b]) == [RawLine(a), RawLine(b)]
  {
    hide RawLine;
    assert [a, b][1..] == [b] && RawLines([]) == [] && RawLines([b]) == [RawLine(b)];
  }

  lemma JoinOfTwo(a: string, b: string, at: char)
    ensures Join([a, b], at) == a + [at] + b
  {
    assert [a, b][1..] == [b] && Join([b], at) == b;
  }
}
