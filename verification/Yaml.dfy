/** The block-structured YAML subset (section 8.2 of YAML 1.2.2) that output schemas are
    written in: the recursive-descent parser over indented lines. */
module Yaml {
  import opened Text
  import opened Json

  /** The JSON reader the parser calls; how it reads is not part of this model. */
  datatype Reader = Reader(value: string -> Option<Value>, number: string -> Option<Number>)

  /** A content line: its indentation in bytes and its trimmed text. */
  datatype Line = Line(indent: nat, text: string)

  // ----- one line -----

  predicate IsDash(text: string) {
    text == "-" || StartsWith(text, "- ")
  }

  predicate OpensFlow(text: string) {
    text != [] && (text[0] == '{' || text[0] == '[')
  }

  predicate IsQuote(c: char) {
    c == '"' || c == '\''
  }

  /** `yaml_key`: the line split at its first `:` behind a quoted start, provided a space or
      the end follows. */
  function KeyOf(line: string): (r: Option<(string, string)>)
    ensures r.Some? ==> |r.value.0| < |line| && |r.value.1| < |line|
  {
    match KeyStart(line)
    case None => None
    case Some(start) =>
      match Find(line[start..], ":")
      case None => None
      case Some(colon) =>
        var at := start + colon;
        var rest := line[at + 1..];
        if rest == [] || rest[0] == ' ' then Some((Trim(line[..at]), Trim(rest))) else None
  }

  /** Where the search for the colon starts: behind the closing quote of a quoted key. */
  function KeyStart(line: string): (r: Option<nat>)
    ensures r.Some? ==> r.value <= |line|
  {
    if line != [] && IsQuote(line[0]) then
      match Find(line[1..], line[..1])
      case None => None
      case Some(close) => Some(close + 2)
    else Some(0)
  }

  function Unquote(s: string): string {
    var t := Trim(s);
    if |t| >= 2 && IsQuote(t[0]) && t[|t| - 1] == t[0] then t[1..|t| - 1] else t
  }

  /** `str::split` at one character. */
  function Split(s: string, at: char): (parts: seq<string>)
    ensures |parts| >= 1 && forall i :: 0 <= i < |parts| ==> |parts[i]| <= |s|
  {
    if s == [] then [[]]
    else
      var rest := Split(s[1..], at);
      if s[0] == at then [[]] + rest else [[s[0]] + rest[0]] + rest[1..]
  }

  /** `yaml_scalar`. */
  function Scalar(raw: string, x: Reader): Result<Value, string>
    decreases |raw|, 1
  {
    if raw != [] && (OpensFlow(raw) || raw[0] == '"') then
      match x.value(raw)
      case Some(v) => Ok(v)
      case None =>
        if |raw| >= 2 && raw[0] == '[' && raw[|raw| - 1] == ']' then
          FlowItems(Split(raw[1..|raw| - 1], ','), [], |raw|, x)
        else if raw[0] == '{' then Err("inline maps must be JSON: `" + raw + "`")
        else Ok(Plain(raw, x))
    else Ok(Plain(raw, x))
  }

  /** The trimmed, non-empty parts of a flow list, each a scalar of its own. */
  function FlowItems(parts: seq<string>, items: seq<Value>, bound: nat, x: Reader): Result<Value, string>
    requires forall i :: 0 <= i < |parts| ==> |parts[i]| < bound
    decreases bound, 0, |parts|
  {
    if parts == [] then Ok(Arr(items))
    else
      var part := Trim(parts[0]);
      if part == [] then FlowItems(parts[1..], items, bound, x)
      else match Scalar(part, x)
        case Err(e) => Err(e)
        case Ok(v) => FlowItems(parts[1..], items + [v], bound, x)
  }

  function Plain(raw: string, x: Reader): Value {
    if raw == "true" then Bool(true)
    else if raw == "false" then Bool(false)
    else if raw == "null" || raw == "~" then Null
    else match x.number(raw)
      case Some(n) => Num(n)
      case None => Str(Unquote(raw))
  }

  // ----- blocks, as functions of the lines still to be read -----

  datatype Step = Done(value: Value, rest: seq<Line>) | Failed(error: string)

  /** A success leaves fewer lines than there were. */
  predicate Progress(lines: seq<Line>, s: Step) {
    s.Done? ==> |s.rest| < |lines|
  }

  predicate NoGain(lines: seq<Line>, s: Step) {
    s.Done? ==> |s.rest| <= |lines|
  }

  function HeadLength(lines: seq<Line>): nat {
    if lines == [] then 0 else |lines[0].text|
  }

  /** `yaml_node`: a list or a map whose lines stand at `indent`. */
  function Node(lines: seq<Line>, indent: nat, x: Reader): (s: Step)
    requires lines != [] && lines[0].indent == indent
    ensures Progress(lines, s)
    decreases |lines|, HeadLength(lines), 2
  {
    if IsDash(lines[0].text) then Items(lines, indent, [], x) else Entries(lines, indent, map[], x)
  }

  /** The list loop. */
  function Items(lines: seq<Line>, indent: nat, items: seq<Value>, x: Reader): (s: Step)
    ensures NoGain(lines, s)
    ensures lines != [] && lines[0].indent == indent && IsDash(lines[0].text) ==> Progress(lines, s)
    decreases |lines|, HeadLength(lines), 1
  {
    if lines == [] || lines[0].indent != indent || !IsDash(lines[0].text) then Done(Arr(items), lines)
    else match OneItem(lines, indent, x)
      case Failed(e) => Failed(e)
      case Done(v, rest) => Items(rest, indent, items + [v], x)
  }

  /** One list item: a child block or null, a map opened in place, or a scalar. */
  function OneItem(lines: seq<Line>, indent: nat, x: Reader): (s: Step)
    requires lines != [] && lines[0].indent == indent && IsDash(lines[0].text)
    ensures Progress(lines, s)
    decreases |lines|, HeadLength(lines), 0
  {
    hide Scalar, KeyOf, OpensFlow, ByteLen;
    var first := Reopened(lines[0]);
    if first.text == [] then Child(lines[1..], indent, false, x)
    else if OpensMap(first.text) then Node([first] + lines[1..], first.indent, x)
    else ScalarStep(first.text, lines[1..], x)
  }

  /** A dash line without its dash, as the line it becomes when its item is a map. */
  function Reopened(line: Line): (r: Line)
    requires line.text != []
    ensures |r.text| < |line.text| && r.indent > line.indent
  {
    var rest := TrimStart(line.text[1..]);
    Line(line.indent + ByteLen(line.text[..|line.text| - |rest|]), rest)
  }

  /** The text behind a dash that opens a map in place. */
  predicate OpensMap(rest: string) {
    KeyOf(rest).Some? && !OpensFlow(rest)
  }

  function ScalarStep(text: string, rest: seq<Line>, x: Reader): (s: Step)
    ensures s.Done? ==> s.rest == rest
  {
    match Scalar(text, x)
    case Err(e) => Failed(e)
    case Ok(v) => Done(v, rest)
  }

  /** The map loop. */
  function Entries(lines: seq<Line>, indent: nat, fields: map<string, Value>, x: Reader): (s: Step)
    ensures NoGain(lines, s)
    ensures lines != [] && lines[0].indent == indent ==> Progress(lines, s)
    decreases |lines|, HeadLength(lines), 1
  {
    hide KeyOf, Unquote;
    if lines == [] || lines[0].indent != indent then Done(Obj(fields), lines)
    else match KeyOf(lines[0].text)
      case None => Failed("expected `key: value`, got `" + lines[0].text + "`")
      case Some(entry) => MoreEntries(lines[1..], indent, fields, entry.0, entry.1, x)
  }

  /** The rest of one map entry and of the map, behind the line with its key. */
  function MoreEntries(lines: seq<Line>, indent: nat, fields: map<string, Value>, key: string, value: string,
                       x: Reader): (s: Step)
    ensures NoGain(lines, s)
    decreases |lines| + 1, 0, 0
  {
    hide Unquote;
    match EntryValue(lines, indent, value, x)
    case Failed(e) => Failed(e)
    case Done(v, rest) => Entries(rest, indent, fields[Unquote(key) := v], x)
  }

  /** What a key stands for: its child block, or the scalar behind it. */
  function EntryValue(lines: seq<Line>, indent: nat, value: string, x: Reader): (s: Step)
    ensures NoGain(lines, s)
    decreases |lines|, HeadLength(lines), 4
  {
    if value == [] then Child(lines, indent, true, x) else ScalarStep(value, lines, x)
  }

  /** `yaml_child`: a deeper block, a list at the same indentation (under a key only), or null. */
  function Child(lines: seq<Line>, indent: nat, sameLevelList: bool, x: Reader): (s: Step)
    ensures NoGain(lines, s)
    decreases |lines|, HeadLength(lines), 3
  {
    if lines != [] && lines[0].indent > indent then Node(lines, lines[0].indent, x)
    else if lines != [] && sameLevelList && lines[0].indent == indent && StartsWith(lines[0].text, "- ") then
      Node(lines, indent, x)
    else Done(Null, lines)
  }

  // ----- the whole text -----

  /** Neither blank nor a comment. */
  predicate IsContent(line: string) {
    Trim(line) != [] && !StartsWith(TrimStart(line), "#")
  }

  function ContentLine(line: string): Line {
    Line(ByteLen(line[..LeadingSpace(line)]), Trim(line))
  }

  function ContentLines(lines: seq<string>): seq<Line> {
    if lines == [] then []
    else (if IsContent(lines[0]) then [ContentLine(lines[0])] else []) + ContentLines(lines[1..])
  }

  /** `yaml_value`: a flow value, or blocks that take every content line. */
  function ValueOf(raw: string, x: Reader): Result<Value, string> {
    if OpensFlow(TrimStart(raw)) then Scalar(Trim(raw), x)
    else
      var lines := ContentLines(Split(raw, '\n'));
      if lines == [] then Err("`output` is empty")
      else match Node(lines, lines[0].indent, x)
        case Failed(e) => Err(e)
        case Done(v, rest) =>
          if rest == [] then Ok(v) else Err("unexpected indentation at `" + rest[0].text + "`")
  }
}
