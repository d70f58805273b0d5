/** The ways a value can be laid out in the block subset, and the lines of each. */
module YamlLayout {
  import opened Text
  import opened Json
  import opened Yaml

  /** A layout: nothing at all (null), a scalar, a map or a list. */
  datatype Doc = Nothing | Leaf(text: string) | Mapping(fields: Fields) | Listing(items: Elements)

  /** Map entries; a block stands `step` columns behind its key. */
  datatype Fields = NoField | Field(key: string, step: nat, child: Doc, more: Fields)

  /** List items: on the line of the dash, `pad` extra spaces behind it, or on the lines below. */
  datatype Elements = NoItem
                    | Inline(pad: nat, here: Doc, more: Elements)
                    | Below(step: nat, child: Doc, more: Elements)

  // ----- printing -----

  function Lines(doc: Doc, indent: nat): seq<Line>
    decreases doc, 0
  {
    match doc
    case Nothing => []
    case Leaf(text) => [Line(indent, text)]
    case Mapping(fields) => FieldLines(fields, indent)
    case Listing(items) => ItemLines(items, indent)
  }

  function FieldLines(fields: Fields, indent: nat): seq<Line>
    decreases fields, 2
  {
    match fields
    case NoField => []
    case Field(key, step, child, more) => OneField(key, step, child, indent) + FieldLines(more, indent)
  }

  function OneField(key: string, step: nat, child: Doc, indent: nat): seq<Line>
    decreases child, 1
  {
    if child.Leaf? then [Line(indent, key + ": " + child.text)]
    else [Line(indent, key + ":")] + Lines(child, indent + step)
  }

  function ItemLines(items: Elements, indent: nat): seq<Line>
    decreases items, 2
  {
    match items
    case NoItem => []
    case Inline(pad, here, more) => Dashed(Lines(here, indent + 2 + pad), indent, pad) + ItemLines(more, indent)
    case Below(step, child, more) => [Line(indent, "-")] + Lines(child, indent + step) + ItemLines(more, indent)
  }

  /** A block whose first line follows a dash. */
  function Dashed(block: seq<Line>, indent: nat, pad: nat): seq<Line> {
    if block == [] then [] else [Line(indent, "- " + Spaces(pad) + block[0].text)] + block[1..]
  }

  /** The text of a layout's first line. */
  function HeadText(doc: Doc): string {
    match doc
    case Nothing => []
    case Leaf(text) => text
    case Mapping(NoField) => []
    case Mapping(Field(key, _, child, _)) => if child.Leaf? then key + ": " + child.text else key + ":"
    case Listing(NoItem) => []
    case Listing(Inline(pad, here, _)) => "- " + Spaces(pad) + HeadText(here)
    case Listing(Below(_, _, _)) => "-"
  }

  // ----- which layouts are legal -----

  /** A key as written: quoted, or free of colons. */
  predicate KeyFits(key: string) {
    key != [] && Trimmed(key) && !StartsWith(key, "- ")
    && if IsQuote(key[0]) then Quoted(key) else ':' !in key
  }

  /** One quote, no further one of its kind, and the same quote at the end. */
  predicate Quoted(s: string) {
    |s| >= 2 && IsQuote(s[0]) && s[|s| - 1] == s[0] && s[0] !in s[1..|s| - 1]
  }

  predicate LeafFits(text: string, x: Reader) {
    text != [] && Trimmed(text) && Scalar(text, x).Ok?
  }

  predicate IsBlock(doc: Doc) {
    (doc.Mapping? && doc.fields.Field?) || (doc.Listing? && !doc.items.NoItem?)
  }

  /** Deep enough to be read as a child: deeper, or a list of `- ` lines level with its key. */
  predicate StepFits(doc: Doc, step: nat, underKey: bool) {
    IsBlock(doc) ==> step > 0 || (underKey && doc.Listing? && StartsWith(HeadText(doc), "- "))
  }

  predicate Fits(doc: Doc, x: Reader) {
    match doc
    case Nothing => true
    case Leaf(text) => LeafFits(text, x)
    case Mapping(fields) => fields.Field? && FieldsFit(fields, x)
    case Listing(items) => !items.NoItem? && ItemsFit(items, x)
  }

  predicate FieldsFit(fields: Fields, x: Reader) {
    match fields
    case NoField => true
    case Field(key, step, child, more) =>
      KeyFits(key) && Fits(child, x) && StepFits(child, step, true) && FieldsFit(more, x)
  }

  /** On the line of a dash, a scalar must not look like a map entry and a block must. */
  predicate ItemsFit(items: Elements, x: Reader) {
    match items
    case NoItem => true
    case Inline(_, here, more) =>
      !here.Nothing? && Fits(here, x) && (here.Leaf? <==> !OpensMap(HeadText(here))) && ItemsFit(more, x)
    case Below(step, child, more) =>
      !child.Leaf? && Fits(child, x) && StepFits(child, step, false) && ItemsFit(more, x)
  }

  // ----- what a layout means -----

  function Meaning(doc: Doc, x: Reader): Value
    requires Fits(doc, x)
  {
    match doc
    case Nothing => Null
    case Leaf(text) => Scalar(text, x).value
    case Mapping(fields) => Obj(FieldValues(fields, map[], x))
    case Listing(items) => Arr(ItemValues(items, x))
  }

  /** The members, a later one replacing an earlier one of the same name. */
  function FieldValues(fields: Fields, before: map<string, Value>, x: Reader): map<string, Value>
    requires FieldsFit(fields, x)
  {
    match fields
    case NoField => before
    case Field(key, _, child, more) => FieldValues(more, before[Unquote(key) := Meaning(child, x)], x)
  }

  function ItemValues(items: Elements, x: Reader): seq<Value>
    requires ItemsFit(items, x)
  {
    match items
    case NoItem => []
    case Inline(_, here, more) => [Meaning(here, x)] + ItemValues(more, x)
    case Below(_, child, more) => [Meaning(child, x)] + ItemValues(more, x)
  }
}
