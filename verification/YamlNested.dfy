/** What stands on the line of a dash: when a list there is read as a list, and a scalar as a
    scalar. */
module YamlNested {
  import opened Text
  import opened Json
  import opened Yaml
  import opened YamlLayout
  import opened YamlRoundTrip

  /** A list on the line of a dash is read as a list if and only if its first line reads as an
      entry: otherwise that line is one scalar. */
  lemma {:induction false} InlineListReads(pad: nat, here: Doc, indent: nat, behind: seq<Line>, x: Reader)
    requires here.Listing? && Fits(here, x) && Outer(behind, indent)
    ensures ItemReadsAs(Dashed(Lines(here, indent + 2 + pad), indent, pad) + behind, indent,
                        Meaning(here, x), behind, x)
            <==> OpensMap(HeadText(here))
  {
    HeadOfInline(here, x);
    HeadIsDash(here, x);
    var text := HeadText(here);
    hide Fits, Lines, HeadText, OpensMap, Dashed, ItemReadsAs, Scalar;
    if OpensMap(text) {
      InlineReads(pad, here, indent, behind, x);
    } else {
      HeadLine(here, indent + 2 + pad, x);
      HeadIsSolid(here, x);
      DashedScalar(pad, Lines(here, indent + 2 + pad), indent, behind, x);
    }
  }

  /** A block whose first line starts with a dash and opens no map is not read as a list. */
  lemma DashedScalar(pad: nat, block: seq<Line>, indent: nat, behind: seq<Line>, x: Reader)
    requires block != [] && IsDash(block[0].text) && !OpensMap(block[0].text)
    ensures forall items :: !ItemReadsAs(Dashed(block, indent, pad) + behind, indent, Arr(items), behind, x)
  {
    hide OpensMap, Reopened, Spaces;
    var lines, text := Dashed(block, indent, pad) + behind, block[0].text;
    assert lines[0] == Line(indent, "- " + Spaces(pad) + text);
    ReopensAs(indent, pad, text);
    DashScalarIsNoList(text, x);
    hide Scalar, Plain;
  }

  lemma DashScalarIsNoList(text: string, x: Reader)
    requires IsDash(text)
    ensures Scalar(text, x) == Ok(Plain(text, x)) && !Plain(text, x).Arr?
  {
    hide Unquote;
    assert text[0] == '-' by {
      assert text != "-" ==> text[..2][0] == text[0];
    }
  }

  /** A scalar on the line of a dash is read as that scalar if and only if it does not read as
      an entry, given that JSON text that starts with a quote is a string. */
  lemma {:induction false} InlineScalarReads(pad: nat, text: string, indent: nat, behind: seq<Line>, x: Reader)
    requires LeafFits(text, x) && (text[0] == '"' && x.value(text).Some? ==> x.value(text).value.Str?)
    ensures ItemReadsAs([Line(indent, "- " + Spaces(pad) + text)] + behind, indent, Scalar(text, x).value, behind, x)
            <==> !OpensMap(text)
  {
    assert text != [] && !IsWhitespace(text[0]) && Scalar(text, x).Ok?;
    hide Scalar, OpensMap, Reopened, OneItem, Spaces, IsDash;
    var lines := [Line(indent, "- " + Spaces(pad) + text)] + behind;
    assert lines[1..] == behind;
    ReopensAs(indent, pad, text);
    DashStarts(pad, text);
    if OpensMap(text) {
      OpenedIsCollection(lines, indent, x);
      FlatScalar(text, x);
    } else {
      LeafItem(lines, indent, text, x);
    }
  }

  lemma FlatScalar(text: string, x: Reader)
    requires text != [] && OpensMap(text) && Scalar(text, x).Ok?
    requires text[0] == '"' && x.value(text).Some? ==> x.value(text).value.Str?
    ensures !Scalar(text, x).value.Arr? && !Scalar(text, x).value.Obj?
  {
    hide KeyOf, FlowItems, Unquote;
  }

  lemma OpenedIsCollection(lines: seq<Line>, indent: nat, x: Reader)
    requires lines != [] && lines[0].indent == indent && IsDash(lines[0].text) && OpensMap(Reopened(lines[0]).text)
    ensures OneItem(lines, indent, x).Done? ==>
              OneItem(lines, indent, x).value.Arr? || OneItem(lines, indent, x).value.Obj?
  {
    NothingOpens();
    hide OpensMap, Reopened, Node, Scalar, IsDash;
    var first := Reopened(lines[0]);
    NodeIsCollection([first] + lines[1..], first.indent, x);
  }

  lemma NothingOpens()
    ensures !OpensMap([])
  {
    assert Find([], ":").None?;
  }

  lemma NodeIsCollection(lines: seq<Line>, indent: nat, x: Reader)
    requires lines != [] && lines[0].indent == indent
    ensures Node(lines, indent, x).Done? ==> Node(lines, indent, x).value.Arr? || Node(lines, indent, x).value.Obj?
  {
    ItemsGiveList(lines, indent, [], x);
    EntriesGiveMap(lines, indent, map[], x);
    hide Yaml.Items, Entries;
  }

  lemma {:induction false} ItemsGiveList(lines: seq<Line>, indent: nat, items: seq<Value>, x: Reader)
    ensures Yaml.Items(lines, indent, items, x).Done? ==> Yaml.Items(lines, indent, items, x).value.Arr?
    decreases |lines|
  {
    hide OneItem, IsDash;
    if lines != [] && lines[0].indent == indent && IsDash(lines[0].text) && OneItem(lines, indent, x).Done? {
      ItemsGiveList(OneItem(lines, indent, x).rest, indent, items + [OneItem(lines, indent, x).value], x);
    }
  }

  lemma {:induction false} EntriesGiveMap(lines: seq<Line>, indent: nat, fields: map<string, Value>, x: Reader)
    ensures Entries(lines, indent, fields, x).Done? ==> Entries(lines, indent, fields, x).value.Obj?
    decreases |lines|
  {
    hide KeyOf, EntryValue, Unquote;
    if lines != [] && lines[0].indent == indent && KeyOf(lines[0].text).Some? {
      var entry := KeyOf(lines[0].text).value;
      var value := EntryValue(lines[1..], indent, entry.1, x);
      if value.Done? {
        EntriesGiveMap(value.rest, indent, fields[Unquote(entry.0) := value.value], x);
      }
    }
  }

  /** The smallest such text: `- - a` is one string. */
  lemma NestedDashIsAString(x: Reader)
    requires x.number("- a").None?
    ensures Yaml.Items([Line(0, "- - a")], 0, [], x) == Done(Arr([Str("- a")]), [])
  {
    hide *;
    DashAIsNoKey();
    NotQuoted("- a");
    PlainDash("- a", x);
    Unpadded("- a");
    assert !IsWhitespace('-') by { Solid(); }
    assert "- " + "- a" == "- - a";
    OneDashedScalar("- a", Str("- a"), x);
  }

  lemma Solid()
    ensures !IsWhitespace('-') && !IsWhitespace('a') && !IsQuote('-')
  {
  }

  lemma NotQuoted(text: string)
    requires |text| == 3 && text[0] == '-' && text[2] == 'a'
    ensures Unquote(text) == text
  {
    TrimKeeps(text);
  }

  lemma Unpadded(text: string)
    ensures "- " + Spaces(0) + text == "- " + text
  {
  }

  lemma OneDashedScalar(text: string, v: Value, x: Reader)
    requires text != [] && !IsWhitespace(text[0]) && !OpensMap(text) && Scalar(text, x) == Ok(v)
    ensures Yaml.Items([Line(0, "- " + Spaces(0) + text)], 0, [], x) == Done(Arr([v]), [])
  {
    hide *;
    assert forall line: Line :: [line][1..] == [];
    var line := Line(0, "- " + Spaces(0) + text);
    ReopensAs(0, 0, text);
    DashStarts(0, text);
    LeafItem([line], 0, text, x);
    ItemStep([line], 0, [], v, [], x);
    assert [] + [v] == [v];
    ItemsEnd([], 0, [v], x);
  }

  lemma PlainDash(text: string, x: Reader)
    requires text != [] && text[0] == '-' && x.number(text).None?
    ensures Scalar(text, x) == Ok(Str(Unquote(text)))
  {
    hide Unquote, FlowItems;
    assert "true"[0] != text[0] && "false"[0] != text[0] && "null"[0] != text[0] && "~"[0] != text[0];
  }

  lemma DashAIsNoKey()
    ensures !OpensMap("- a")
  {
    var text := "- a";
    assert text[0..] == text;
    forall j: nat ensures !OccursAt(text, ":", j) {
      assert j < 3 ==> text[j..j + 1][0] == text[j];
    }
  }
}
