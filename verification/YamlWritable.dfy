/** Every value of the subset can be written: for each there is a text that is read as it. */
module YamlWritable {
  import opened Text
  import opened Json
  import opened Yaml
  import opened YamlLayout
  import opened YamlRoundTrip
  import opened YamlText

  /** The characters of a JSON number (section 6 of RFC 8259). */
  predicate NumberText(t: string) {
    t != [] && forall i :: 0 <= i < |t| ==> IsDigit(t[i]) || t[i] in "+-.eE"
  }

  /** What is taken from the JSON reader: numbers look like numbers, and it reads `[]` and `{}`. */
  ghost predicate Sound(x: Reader) {
    && (forall t :: x.number(t).Some? ==> NumberText(t))
    && x.value("[]") == Some(Arr([])) && x.value("{}") == Some(Obj(map[]))
  }

  function InQuotes(s: string, quote: char): string {
    [quote] + s + [quote]
  }

  /** How a scalar or an empty collection is written. */
  function TextOf(v: Value): string {
    match v
    case Null => "null"
    case Bool(b) => if b then "true" else "false"
    case Num(n) => n.text
    case Str(s) => InQuotes(s, '\'')
    case Arr(_) => "[]"
    case Obj(_) => "{}"
  }

  predicate HasLines(v: Value) {
    (v.Arr? && v.items != []) || (v.Obj? && v.fields != map[])
  }

  /** A key that one of the two quotes can hold. */
  predicate WritableKey(key: string) {
    '\n' !in key && ('\'' !in key || '"' !in key)
  }

  /** Strings on one line; in a list, none that in quotes would pass for a map entry. */
  ghost predicate Writable(v: Value, x: Reader) {
    match v
    case Null => true
    case Bool(_) => true
    case Num(n) => x.number(n.text) == Some(n)
    case Str(s) => '\n' !in s
    case Arr(items) =>
      forall i :: 0 <= i < |items| ==> Writable(items[i], x) && WritableItem(items[i])
    case Obj(fields) =>
      forall key :: key in fields ==> WritableKey(key) && Writable(fields[key], x)
  }

  predicate WritableItem(v: Value) {
    v.Str? ==> !OpensMap(InQuotes(v.s, '\''))
  }

  // ----- scalars -----

  lemma {:induction false} ScalarReads(v: Value, x: Reader)
    requires Sound(x) && Writable(v, x) && !HasLines(v)
    ensures Scalar(TextOf(v), x) == Ok(v) && LeafFits(TextOf(v), x) && '\n' !in TextOf(v)
  {
    match v
    case Null =>
    case Bool(_) =>
    case Num(n) => assert NumberText(n.text); NumberReads(n, x);
    case Str(s) => QuotedReads(s, x);
    case Arr(_) =>
    case Obj(_) =>
  }

  lemma NumberReads(n: Number, x: Reader)
    requires Sound(x) && x.number(n.text) == Some(n) && NumberText(n.text)
    ensures Scalar(n.text, x) == Ok(Num(n)) && Trimmed(n.text) && '\n' !in n.text
  {
    assert forall i :: 0 <= i < |n.text| ==> !IsWhitespace(n.text[i]) && n.text[i] !in "{[\"~fnt";
  }

  lemma QuotedReads(s: string, x: Reader)
    requires Sound(x) && '\n' !in s
    ensures Scalar(InQuotes(s, '\''), x) == Ok(Str(s)) && Trimmed(InQuotes(s, '\'')) && '\n' !in InQuotes(s, '\'')
  {
    var t := InQuotes(s, '\'');
    UnquoteUndoes(s, '\'');
    NoNumber(t, x);
    QuotedIsText(t, x);
    hide Sound, Unquote, NumberText, Scalar;
  }

  lemma QuotedIsText(t: string, x: Reader)
    requires t != [] && t[0] == '\'' && x.number(t).None?
    ensures Scalar(t, x) == Ok(Str(Unquote(t)))
  {
    hide Unquote, FlowItems;
    assert "true"[0] != t[0] && "false"[0] != t[0] && "null"[0] != t[0] && "~"[0] != t[0];
  }

  lemma NoNumber(t: string, x: Reader)
    requires Sound(x) && t != [] && t[0] == '\''
    ensures x.number(t).None?
  {
    assert !NumberText(t);
  }

  lemma UnquoteUndoes(s: string, quote: char)
    requires IsQuote(quote)
    ensures Unquote(InQuotes(s, quote)) == s
  {
    var t := InQuotes(s, quote);
    TrimKeeps(t);
    assert t[1..|t| - 1] == s;
  }

  lemma NoColon(text: string)
    requires text != [] && ':' !in text && !IsQuote(text[0])
    ensures KeyOf(text).None?
  {
    assert text[0..] == text;
    forall j: nat ensures !OccursAt(text, ":", j) {
      assert j < |text| ==> text[j..j + 1][0] == text[j];
    }
  }

  /** Behind a dash, a scalar of the subset is not taken for a map. */
  lemma ScalarIsNoMap(v: Value, x: Reader)
    requires Sound(x) && Writable(v, x) && !HasLines(v) && WritableItem(v)
    ensures !OpensMap(TextOf(v))
  {
    hide KeyOf;
    match v
    case Null => NoColon("null");
    case Bool(_) => NoColon(TextOf(v));
    case Num(n) => assert NumberText(n.text); NoColon(n.text);
    case Str(s) =>
    case Arr(_) =>
    case Obj(_) =>
  }

  function KeyText(key: string): string {
    if '\'' !in key then InQuotes(key, '\'') else InQuotes(key, '"')
  }

  lemma KeyTextFits(key: string)
    requires WritableKey(key)
    ensures KeyFits(KeyText(key)) && Unquote(KeyText(key)) == key
    ensures '\n' !in KeyText(key) && !StartsWith(KeyText(key), "#")
  {
    var quote := if '\'' !in key then '\'' else '"';
    var t := InQuotes(key, quote);
    UnquoteUndoes(key, quote);
    assert t[1..|t| - 1] == key;
    assert t[..1] == [quote] && t[..2][0] == quote;
  }

  // ----- blocks -----

  predicate Writes(doc: Doc, v: Value, x: Reader) {
    Fits(doc, x) && OneLined(doc) && Meaning(doc, x) == v
  }

  /** A child is written as nothing, as a scalar, or as a block. */
  lemma {:induction false} WriteChild(v: Value, x: Reader) returns (doc: Doc)
    requires Sound(x) && Writable(v, x)
    ensures Writes(doc, v, x) && (doc.Nothing? <==> v.Null?) && (IsBlock(doc) <==> HasLines(v))
    ensures doc.Leaf? ==> doc.text == TextOf(v)
    decreases v, 1
  {
    if v.Null? {
      doc := Nothing;
    } else if HasLines(v) {
      doc := WriteBlock(v, x);
    } else {
      ScalarReads(v, x);
      doc := Leaf(TextOf(v));
      hide Scalar, Writable, Sound, TextOf;
    }
  }

  lemma {:induction false} WriteBlock(v: Value, x: Reader) returns (doc: Doc)
    requires Sound(x) && Writable(v, x) && HasLines(v)
    ensures Writes(doc, v, x) && IsBlock(doc) && !OpensFlow(HeadText(doc))
    decreases v, 0
  {
    hide Sound;
    if v.Obj? {
      var fields := WriteFields(v, v.fields.Keys, map[], x);
      assert map[] + Among(v.fields, v.fields.Keys) == v.fields;
      doc := Mapping(fields);
    } else {
      var items := WriteItems(v, 0, x);
      assert v.items[0..] == v.items;
      doc := Listing(items);
    }
    hide Writable, FieldsFit, ItemsFit, FieldValues, ItemValues;
  }

  function Among(fields: map<string, Value>, keys: set<string>): map<string, Value> {
    map k | k in keys && k in fields :: fields[k]
  }

  lemma {:induction false} WriteFields(v: Value, keys: set<string>, before: map<string, Value>, x: Reader)
    returns (fields: Fields)
    requires Sound(x) && v.Obj? && Writable(v, x) && keys <= v.fields.Keys
    ensures FieldsFit(fields, x) && FieldsOneLined(fields) && (fields.NoField? <==> keys == {})
    ensures fields.Field? ==> IsQuote(fields.key[0])
    ensures FieldValues(fields, before, x) == before + Among(v.fields, keys)
    decreases v, 0, |keys|
  {
    if keys == {} {
      fields := NoField;
    } else {
      var key :| key in keys;
      var doc := WriteChild(v.fields[key], x);
      var more := WriteFields(v, keys - {key}, before[key := v.fields[key]], x);
      fields := Field(KeyText(key), 2, doc, more);
      OneMore(v.fields, keys, key, before);
      JoinField(key, doc, more, v.fields[key], before, x);
    }
  }

  lemma OneMore(fields: map<string, Value>, keys: set<string>, key: string, before: map<string, Value>)
    requires key in keys && key in fields
    ensures before[key := fields[key]] + Among(fields, keys - {key}) == before + Among(fields, keys)
  {
  }

  lemma JoinField(key: string, doc: Doc, more: Fields, v: Value, before: map<string, Value>, x: Reader)
    requires WritableKey(key) && Writes(doc, v, x) && FieldsFit(more, x) && FieldsOneLined(more)
    ensures var fields := Field(KeyText(key), 2, doc, more);
            FieldsFit(fields, x) && FieldsOneLined(fields) && IsQuote(KeyText(key)[0])
            && FieldValues(fields, before, x) == FieldValues(more, before[key := v], x)
  {
    KeyTextFits(key);
    hide KeyFits, Unquote, Fits, OneLined, Meaning;
  }

  lemma {:induction false} WriteItems(v: Value, from: nat, x: Reader) returns (items: Elements)
    requires Sound(x) && v.Arr? && Writable(v, x) && from <= |v.items|
    ensures ItemsFit(items, x) && ItemsOneLined(items) && (items.NoItem? <==> from == |v.items|)
    ensures ItemValues(items, x) == v.items[from..]
    decreases v, 0, |v.items| - from
  {
    if from == |v.items| {
      items := NoItem;
    } else {
      var item := v.items[from];
      var doc := WriteChild(item, x);
      var more := WriteItems(v, from + 1, x);
      if doc.Leaf? {
        ScalarIsNoMap(item, x);
        items := Inline(0, doc, more);
      } else {
        items := Below(2, doc, more);
      }
      hide Writable, Sound, Scalar, OpensMap, Fits, OneLined, Meaning, TextOf;
    }
  }

  /** Every map or list of the subset has a text, at any indentation, that is read as it. */
  lemma {:induction false} ValueIsWritten(v: Value, indent: nat, x: Reader) returns (doc: Doc)
    requires Sound(x) && Writable(v, x) && HasLines(v)
    ensures Writes(doc, v, x) && ValueOf(PrintedAt(doc, indent), x) == Ok(v)
  {
    doc := WriteBlock(v, x);
    hide Fits, OneLined, Meaning, HeadText, Lines, ValueOf, Writable, Sound;
    PrintedReads(doc, indent, x);
  }
}
