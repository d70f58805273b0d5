/** What the block parser refuses: lines that are no entry, and scalars that cannot be read. An error
    anywhere in a document is the error of the whole. */
module YamlRefusals {
  import opened Text
  import opened Json
  import opened Yaml
  import opened YamlLayout
  import opened YamlRoundTrip
  import opened YamlText
  import opened YamlLeftover

  // ----- lines that are no entry, scalars that cannot be read -----

  predicate Fails(lines: seq<Line>, indent: nat, e: string, x: Reader) {
    lines != [] && lines[0].indent == indent && Node(lines, indent, x) == Yaml.Failed(e)
  }

  /** The entries in front of a line are read, whatever becomes of the line. */
  lemma {:induction false} FieldsThen(fields: Fields, indent: nat, before: map<string, Value>, rest: seq<Line>,
                                      x: Reader)
    requires FieldsFit(fields, x) && EndsChild(indent, true, rest)
    ensures Entries(FieldLines(fields, indent) + rest, indent, before, x)
            == Entries(rest, indent, FieldValues(fields, before, x), x)
    decreases fields
  {
    hide Scalar, KeyFits, StepFits, Entries, OneField, EndsChild;
    match fields
    case NoField =>
      assert FieldLines(fields, indent) + rest == rest;
    case Field(key, step, child, others) =>
      var behind := FieldLines(others, indent) + rest;
      FieldsThen(others, indent, before[Unquote(key) := Meaning(child, x)], rest, x);
      if others.Field? {
        NextIsAKey(others, indent, rest, x);
      } else {
        assert behind == rest;
      }
      FieldReads(key, step, child, indent, before, behind, x);
      assert FieldLines(fields, indent) + rest == OneField(key, step, child, indent) + behind;
  }

  lemma {:induction false} ItemsThen(items: Elements, indent: nat, before: seq<Value>, rest: seq<Line>, x: Reader)
    requires ItemsFit(items, x) && Outer(rest, indent)
    ensures Yaml.Items(ItemLines(items, indent) + rest, indent, before, x)
            == Yaml.Items(rest, indent, before + ItemValues(items, x), x)
    decreases items
  {
    hide Fits, Meaning, Scalar, OneItem, IsDash, Yaml.Items, OpensMap, HeadText, Lines, Dashed, StepFits, ItemReadsAs;
    match items
    case NoItem =>
      assert ItemLines(items, indent) + rest == rest;
      assert before + [] == before;
    case Inline(pad, here, others) =>
      var head, v := Dashed(Lines(here, indent + 2 + pad), indent, pad), Meaning(here, x);
      assert ItemLines(items, indent) == head + ItemLines(others, indent);
      assert ItemValues(items, x) == [v] + ItemValues(others, x);
      ItemsThen(others, indent, before + [v], rest, x);
      OuterItems(others, indent, rest, x);
      hide *;
      InlineReads(pad, here, indent, ItemLines(others, indent) + rest, x);
      OneItemThen(head, ItemLines(others, indent), indent, before, v, ItemValues(others, x), rest, x);
    case Below(step, child, others) =>
      var head, v := [Line(indent, "-")] + Lines(child, indent + step), Meaning(child, x);
      assert ItemLines(items, indent) == head + ItemLines(others, indent);
      assert ItemValues(items, x) == [v] + ItemValues(others, x);
      ItemsThen(others, indent, before + [v], rest, x);
      OuterItems(others, indent, rest, x);
      hide *;
      BelowReads(step, child, indent, ItemLines(others, indent) + rest, x);
      OneItemThen(head, ItemLines(others, indent), indent, before, v, ItemValues(others, x), rest, x);
  }

  lemma OneItemThen(head: seq<Line>, others: seq<Line>, indent: nat, before: seq<Value>, v: Value, values: seq<Value>,
                    rest: seq<Line>, x: Reader)
    requires ItemReadsAs(head + (others + rest), indent, v, others + rest, x)
    requires Yaml.Items(others + rest, indent, before + [v], x) == Yaml.Items(rest, indent, before + [v] + values, x)
    ensures Yaml.Items(head + others + rest, indent, before, x)
            == Yaml.Items(rest, indent, before + ([v] + values), x)
  {
    hide OneItem, IsDash, Yaml.Items;
    ItemStep(head + (others + rest), indent, before, v, others + rest, x);
    assert head + others + rest == head + (others + rest);
    assert before + [v] + values == before + ([v] + values);
  }

  /** What a map fails with, it fails with behind any entries. */
  lemma {:induction false} MapFails(fields: Fields, indent: nat, rest: seq<Line>, e: string, x: Reader)
    requires FieldsFit(fields, x) && rest != [] && rest[0].indent == indent && !IsDash(rest[0].text)
    requires forall before :: Entries(rest, indent, before, x) == Yaml.Failed(e)
    ensures Fails(FieldLines(fields, indent) + rest, indent, e, x)
  {
    var lines := FieldLines(fields, indent) + rest;
    FieldsThen(fields, indent, map[], rest, x);
    if fields.Field? {
      HeadLine(Mapping(fields), indent, x);
      HeadIsDash(Mapping(fields), x);
      assert Lines(Mapping(fields), indent) == FieldLines(fields, indent);
      hide HeadText, FieldLines, FieldsFit;
    } else {
      assert lines == rest;
    }
    hide Entries, IsDash;
  }

  /** And a list behind any items. */
  lemma {:induction false} ListFails(items: Elements, indent: nat, rest: seq<Line>, e: string, x: Reader)
    requires ItemsFit(items, x) && rest != [] && rest[0].indent == indent && IsDash(rest[0].text)
    requires OneItem(rest, indent, x) == Yaml.Failed(e)
    ensures Fails(ItemLines(items, indent) + rest, indent, e, x)
  {
    var lines := ItemLines(items, indent) + rest;
    ItemsThen(items, indent, [], rest, x);
    assert Yaml.Items(rest, indent, [] + ItemValues(items, x), x) == Yaml.Failed(e) by {
      hide OneItem, IsDash;
    }
    if items.NoItem? {
      assert lines == rest;
    } else {
      HeadLine(Listing(items), indent, x);
      HeadIsDash(Listing(items), x);
      assert Lines(Listing(items), indent) == ItemLines(items, indent);
      hide HeadText, ItemLines, ItemsFit;
    }
    hide Yaml.Items, IsDash, OneItem;
  }

  /** A line among the entries of a map that is no entry. */
  lemma {:induction false} NoEntryIsRefused(fields: Fields, indent: nat, text: string, more: seq<Line>, x: Reader)
    requires FieldsFit(fields, x) && !IsDash(text) && KeyOf(text).None?
    ensures Fails(FieldLines(fields, indent) + ([Line(indent, text)] + more), indent,
                  "expected `key: value`, got `" + text + "`", x)
  {
    hide KeyOf, FieldsFit, FieldLines, IsDash, Fails;
    MapFails(fields, indent, [Line(indent, text)] + more, "expected `key: value`, got `" + text + "`", x);
  }

  /** An entry whose scalar cannot be read. */
  lemma {:induction false} BadEntryIsRefused(fields: Fields, indent: nat, key: string, text: string, more: seq<Line>,
                                             e: string, x: Reader)
    requires FieldsFit(fields, x) && KeyFits(key) && text != [] && Trimmed(text) && Scalar(text, x) == Err(e)
    ensures Fails(FieldLines(fields, indent) + ([Line(indent, key + ": " + text)] + more), indent, e, x)
  {
    var rest := [Line(indent, key + ": " + text)] + more;
    hide *;
    KeyAndTextRead(key, text);
    EntryIsNoDash(key, text);
    forall before ensures Entries(rest, indent, before, x) == Yaml.Failed(e) {
      EntryFails(rest, indent, before, key, text, e, x);
    }
    MapFails(fields, indent, rest, e, x);
  }

  lemma EntryIsNoDash(key: string, text: string)
    requires KeyFits(key)
    ensures !IsDash(key + ": " + text)
  {
    KeyLineIsNoDash(key, " " + text);
    assert key + ":" + (" " + text) == key + ": " + text;
    hide IsDash, KeyFits;
  }

  lemma EntryFails(lines: seq<Line>, indent: nat, before: map<string, Value>, key: string, text: string, e: string,
                   x: Reader)
    requires lines != [] && lines[0].indent == indent && KeyOf(lines[0].text) == Some((key, text))
    requires text != [] && Scalar(text, x) == Err(e)
    ensures Entries(lines, indent, before, x) == Yaml.Failed(e)
  {
    hide Scalar, KeyOf, Unquote;
    assert EntryValue(lines[1..], indent, text, x) == Yaml.Failed(e);
    hide EntryValue;
    assert MoreEntries(lines[1..], indent, before, key, text, x) == Yaml.Failed(e);
  }

  /** An item whose scalar cannot be read. */
  lemma {:induction false} BadItemIsRefused(items: Elements, indent: nat, pad: nat, text: string, more: seq<Line>,
                                            e: string, x: Reader)
    requires ItemsFit(items, x) && text != [] && Trimmed(text) && !OpensMap(text) && Scalar(text, x) == Err(e)
    ensures Fails(ItemLines(items, indent) + ([Line(indent, "- " + Spaces(pad) + text)] + more), indent, e, x)
  {
    var rest := [Line(indent, "- " + Spaces(pad) + text)] + more;
    ReopensAs(indent, pad, text);
    DashStarts(pad, text);
    hide Scalar, OpensMap, ItemsFit, ItemLines, IsDash, Fails, Reopened, Spaces;
    ListFails(items, indent, rest, e, x);
  }

  /** What looks like an inline map and is not JSON. */
  lemma InlineMapIsRefused(text: string, x: Reader)
    requires text != [] && text[0] == '{' && x.value(text).None?
    ensures Scalar(text, x) == Err("inline maps must be JSON: `" + text + "`")
  {
  }

  // ----- wherever the error is -----

  /** A place in a document, by what stands before it on the way there. */
  datatype Where =
    | Here
    | UnderKey(fields: Fields, key: string, step: nat, inner: Where)
    | UnderDash(items: Elements, step: nat, inner: Where)
    | BehindDash(items: Elements, pad: nat, inner: Where)

  function Column(w: Where, indent: nat): nat {
    match w
    case Here => indent
    case UnderKey(_, _, step, inner) => Column(inner, indent + step)
    case UnderDash(_, step, inner) => Column(inner, indent + step)
    case BehindDash(_, pad, inner) => Column(inner, indent + 2 + pad)
  }

  /** The lines of a document with these lines at that place; they run to its end. */
  function Around(w: Where, indent: nat, bad: seq<Line>): seq<Line> {
    match w
    case Here => bad
    case UnderKey(fields, key, step, inner) =>
      FieldLines(fields, indent) + ([Line(indent, key + ":")] + Around(inner, indent + step, bad))
    case UnderDash(items, step, inner) =>
      ItemLines(items, indent) + ([Line(indent, "-")] + Around(inner, indent + step, bad))
    case BehindDash(items, pad, inner) =>
      ItemLines(items, indent) + Dashed(Around(inner, indent + 2 + pad, bad), indent, pad)
  }

  /** The way there is legal: children stand where children are looked for. */
  predicate WayFits(w: Where, indent: nat, bad: seq<Line>, x: Reader) {
    match w
    case Here => true
    case UnderKey(fields, key, step, inner) =>
      && FieldsFit(fields, x) && KeyFits(key) && WayFits(inner, indent + step, bad, x)
      && (step > 0 || StartsWith(FirstText(Around(inner, indent + step, bad)), "- "))
    case UnderDash(items, step, inner) => ItemsFit(items, x) && step > 0 && WayFits(inner, indent + step, bad, x)
    case BehindDash(items, pad, inner) =>
      && ItemsFit(items, x) && WayFits(inner, indent + 2 + pad, bad, x)
      && OpensItem(FirstText(Around(inner, indent + 2 + pad, bad)))
  }

  function FirstText(lines: seq<Line>): string {
    if lines == [] then "" else lines[0].text
  }

  predicate OpensItem(text: string) {
    text != [] && !IsWhitespace(text[0]) && OpensMap(text)
  }

  /** An error at any place in a document is the error of the document. */
  lemma {:induction false} ErrorSurfaces(w: Where, indent: nat, bad: seq<Line>, e: string, x: Reader)
    requires WayFits(w, indent, bad, x) && Fails(bad, Column(w, indent), e, x)
    ensures Fails(Around(w, indent, bad), indent, e, x)
    decreases w
  {
    hide Fails, FieldsFit, ItemsFit, KeyFits, OpensItem, FieldLines, ItemLines, Dashed, StartsWith;
    match w
    case Here =>
    case UnderKey(fields, key, step, inner) =>
      ErrorSurfaces(inner, indent + step, bad, e, x);
      FailsUnderKey(fields, indent, key, step, Around(inner, indent + step, bad), e, x);
    case UnderDash(items, step, inner) =>
      ErrorSurfaces(inner, indent + step, bad, e, x);
      FailsUnderDash(items, indent, step, Around(inner, indent + step, bad), e, x);
    case BehindDash(items, pad, inner) =>
      ErrorSurfaces(inner, indent + 2 + pad, bad, e, x);
      FailsBehindDash(items, indent, pad, Around(inner, indent + 2 + pad, bad), e, x);
  }

  lemma ChildFails(block: seq<Line>, indent: nat, step: nat, underKey: bool, e: string, x: Reader)
    requires Fails(block, indent + step, e, x) && (step > 0 || (underKey && StartsWith(FirstText(block), "- ")))
    ensures Child(block, indent, underKey, x) == Yaml.Failed(e)
  {
    hide Node, StartsWith;
  }

  lemma FailsUnderKey(fields: Fields, indent: nat, key: string, step: nat, block: seq<Line>, e: string, x: Reader)
    requires FieldsFit(fields, x) && KeyFits(key) && Fails(block, indent + step, e, x)
    requires step > 0 || StartsWith(FirstText(block), "- ")
    ensures Fails(FieldLines(fields, indent) + ([Line(indent, key + ":")] + block), indent, e, x)
  {
    hide *;
    ChildFails(block, indent, step, true, e, x);
    BareKeyReads(key);
    BareKeyIsNoDash(key);
    var rest := [Line(indent, key + ":")] + block;
    assert rest[1..] == block;
    forall before ensures Entries(rest, indent, before, x) == Yaml.Failed(e) {
      BlockEntryFails(rest, indent, before, key, e, x);
    }
    MapFails(fields, indent, rest, e, x);
  }

  lemma BareKeyIsNoDash(key: string)
    requires KeyFits(key)
    ensures !IsDash(key + ":")
  {
    KeyLineIsNoDash(key, "");
    assert key + ":" + "" == key + ":";
    hide IsDash, KeyFits;
  }

  lemma BlockEntryFails(lines: seq<Line>, indent: nat, before: map<string, Value>, key: string, e: string, x: Reader)
    requires lines != [] && lines[0].indent == indent && KeyOf(lines[0].text) == Some((key, ""))
    requires Child(lines[1..], indent, true, x) == Yaml.Failed(e)
    ensures Entries(lines, indent, before, x) == Yaml.Failed(e)
  {
    hide Child, KeyOf, Unquote;
    assert EntryValue(lines[1..], indent, "", x) == Yaml.Failed(e);
    hide EntryValue;
    assert MoreEntries(lines[1..], indent, before, key, "", x) == Yaml.Failed(e);
  }

  lemma FailsUnderDash(items: Elements, indent: nat, step: nat, block: seq<Line>, e: string, x: Reader)
    requires ItemsFit(items, x) && step > 0 && Fails(block, indent + step, e, x)
    ensures Fails(ItemLines(items, indent) + ([Line(indent, "-")] + block), indent, e, x)
  {
    hide *;
    ChildFails(block, indent, step, false, e, x);
    var rest := [Line(indent, "-")] + block;
    assert rest[1..] == block;
    BareItemFails(rest, indent, e, x);
    ListFails(items, indent, rest, e, x);
  }

  lemma BareItemFails(lines: seq<Line>, indent: nat, e: string, x: Reader)
    requires lines != [] && lines[0] == Line(indent, "-") && Child(lines[1..], indent, false, x) == Yaml.Failed(e)
    ensures IsDash(lines[0].text) && OneItem(lines, indent, x) == Yaml.Failed(e)
  {
    hide Child, Reopened;
    BareDash(indent);
  }

  lemma FailsBehindDash(items: Elements, indent: nat, pad: nat, block: seq<Line>, e: string, x: Reader)
    requires ItemsFit(items, x) && Fails(block, indent + 2 + pad, e, x) && OpensItem(FirstText(block))
    ensures Fails(ItemLines(items, indent) + Dashed(block, indent, pad), indent, e, x)
  {
    DashedFails(block, indent, pad, e, x);
    hide *;
    ListFails(items, indent, Dashed(block, indent, pad), e, x);
  }

  lemma DashedFails(block: seq<Line>, indent: nat, pad: nat, e: string, x: Reader)
    requires Fails(block, indent + 2 + pad, e, x) && OpensItem(FirstText(block))
    ensures var lines := Dashed(block, indent, pad);
            && lines != [] && lines[0].indent == indent && IsDash(lines[0].text)
            && OneItem(lines, indent, x) == Yaml.Failed(e)
  {
    hide OpensMap, Reopened, Spaces, IsDash, Node, Scalar;
    var lines, text := Dashed(block, indent, pad), block[0].text;
    assert lines[0] == Line(indent, "- " + Spaces(pad) + text) && lines[1..] == block[1..];
    ReopensAs(indent, pad, text);
    DashStarts(pad, text);
    assert [block[0]] + lines[1..] == block;
  }

  /** So it is the error of the text. */
  lemma {:induction false} ErrorIsReported(raws: seq<string>, w: Where, indent: nat, bad: seq<Line>, e: string,
                                           x: Reader)
    requires WayFits(w, indent, bad, x) && Fails(bad, Column(w, indent), e, x)
    requires raws != [] && ContentLines(raws) == Around(w, indent, bad)
    requires forall i :: 0 <= i < |raws| ==> '\n' !in raws[i]
    requires !OpensFlow(TrimStart(Join(raws, '\n')))
    ensures ValueOf(Join(raws, '\n'), x) == Err(e)
  {
    hide Join, Split, ContentLines, Node, TrimStart, OpensFlow, WayFits, Around, Column;
    ErrorSurfaces(w, indent, bad, e, x);
    SplitOfJoin(raws, '\n');
  }
}
